/**
 * Revocation and forgetting over whole runs: an unshared scope stays out until
 * a later re-share, the drain deletes exactly the revoked writes it listed, a
 * queued forget stays queued until it is applied, and the vault order follows
 * the claims of the pushes.
 */
module ShareRuns {
  import opened Options
  import opened ProjectHead
  import opened RowStore
  import opened ProjectProtocol
  import opened ProjectRuns
  import opened ProjectAnswers
  import VaultOrderRuns

  // ---- one unshare ---------------------------------------------------------

  /** A tombstone stands after an unshare exactly when one stood, a row went, or a new one may be written. */
  lemma UnshareLeavesTombstoneIff(a: Acct, sc: Scope, scopeBytes: nat, paidOrStamped: bool, now: int)
    ensures Tombstoned(Unshare(a, sc, scopeBytes, paidOrStamped, now).tombs, sc) <==>
      || Tombstoned(a.tombs, sc)
      || (exists id :: id in a.rows && a.rows[id].scope == sc)
      || (scopeBytes <= MAX_NEW_TOMBSTONE_SCOPE_BYTES && |a.tombs| < MAX_TOMBSTONES_PER_ACCOUNT && paidOrStamped)
  {
    var b := Unshare(a, sc, scopeBytes, paidOrStamped, now).tombs;
    var i := FirstTomb(a.tombs, sc);
    if i < |a.tombs| {
      assert a.tombs[i] in a.tombs && b[i] in b;
    } else {
      assert !Tombstoned(a.tombs, sc);
      if |b| > |a.tombs| { assert b[|a.tombs|] in b; }
      assert (exists id :: id in a.rows && a.rows[id].scope == sc) <==> InScope(a, sc) != {} by {
        if id :| id in a.rows && a.rows[id].scope == sc { assert id in InScope(a, sc); }
        if id :| id in InScope(a, sc) { assert id in a.rows && a.rows[id].scope == sc; }
      }
    }
  }

  /** A tombstone of the scope from t on. */
  predicate TombFrom(tombs: seq<Tombstone>, sc: Scope, t: int) {
    exists x :: x in tombs && x.scope == sc && x.unsharedAt.At? && x.unsharedAt.ms >= t
  }

  /** What the unshare leaves of the scope's tombstones: one from `now` on, the later old ones, and nothing later than both. */
  lemma UnshareDates(a: Acct, sc: Scope, scopeBytes: nat, paidOrStamped: bool, now: int)
    requires Parsable(a.tombs)
    ensures var tombs := Unshare(a, sc, scopeBytes, paidOrStamped, now).tombs;
      && Parsable(tombs)
      && (Tombstoned(tombs, sc) ==> TombFrom(tombs, sc, now))
      && (forall t :: t in a.tombs && t.scope == sc ==> TombFrom(tombs, sc, t.unsharedAt.ms))
      && (forall t :: t in tombs && t.scope == sc ==> t in a.tombs || t.unsharedAt == At(now))
  {
    var tombs := Unshare(a, sc, scopeBytes, paidOrStamped, now).tombs;
    var i := FirstTomb(a.tombs, sc);
    forall t | t in tombs ensures t in a.tombs || t == Tombstone(sc, At(now)) {
      var j :| 0 <= j < |tombs| && tombs[j] == t;
      if j < |a.tombs| && j != i { assert tombs[j] == a.tombs[j]; }
    }
    if i < |a.tombs| {
      assert a.tombs[i] in a.tombs;
      assert tombs[i] in tombs && tombs[i].scope == sc && tombs[i].unsharedAt.ms >= now && tombs[i].unsharedAt.ms >= a.tombs[i].unsharedAt.ms;
      forall t | t in a.tombs && t.scope == sc ensures TombFrom(tombs, sc, t.unsharedAt.ms) {
        var j :| 0 <= j < |a.tombs| && a.tombs[j] == t;
        if j != i { assert tombs[j] == t && tombs[j] in tombs; }
      }
    } else {
      if |tombs| > |a.tombs| { assert tombs[|a.tombs|] in tombs && tombs[|a.tombs|] == Tombstone(sc, At(now)); }
      forall t | t in a.tombs ensures t.scope != sc { }
    }
  }

  /** The caller's shared_at of the scope is later than t. */
  predicate SharedAfter(sharedAt: map<Scope, Instant>, sc: Scope, t: int) {
    sc in sharedAt && sharedAt[sc].At? && sharedAt[sc].ms > t
  }

  /**
   * After an unshare at `now` that leaves a tombstone, a push of the scope with
   * its shared_at missing, unparsable or not later than `now` is refused and
   * changes nothing; and a push of the scope alone is refused for a tombstone
   * exactly when its shared_at is not later than `now` and every earlier unshare.
   */
  lemma UnsharedStaysOut(a: Acct, sc: Scope, scopeBytes: nat, paidOrStamped: bool, now: int, scopes: seq<Scope>, es: seq<Entry>, sharedAt: map<Scope, Instant>, claim: Claim)
    requires Parsable(a.tombs)
    ensures var b := Unshare(a, sc, scopeBytes, paidOrStamped, now);
      Tombstoned(b.tombs, sc) ==>
        && (sc in scopes && !SharedAfter(sharedAt, sc, now) ==> Reshare(b, scopes, es, sharedAt, claim) == (b, TombstoneConflict))
        && (Reshare(b, [sc], es, sharedAt, claim).1.TombstoneConflict? <==>
              !(SharedAfter(sharedAt, sc, now) && forall t :: t in a.tombs && t.scope == sc ==> SharedAfter(sharedAt, sc, t.unsharedAt.ms)))
  {
    var b := Unshare(a, sc, scopeBytes, paidOrStamped, now);
    UnshareDates(a, sc, scopeBytes, paidOrStamped, now);
    ReshareEffects(b, scopes, es, sharedAt, claim);
    ReshareEffects(b, [sc], es, sharedAt, claim);
  }

  // ---- over a run ----------------------------------------------------------

  /** An accepted push of this scope whose shared_at is later than t. */
  predicate ResharesAfter(w: World, st: Step, sc: Scope, t: int) {
    st.ReshareStep? && sc in st.scopes && SharedAfter(st.sharedAt, sc, t) && Reshare(w.acct, st.scopes, st.es, st.sharedAt, st.claim).1.Accepted?
  }

  lemma UnshareElsewhere(a: Acct, x: Scope, scopeBytes: nat, paidOrStamped: bool, now: int, sc: Scope, t: int)
    requires Parsable(a.tombs) && TombFrom(a.tombs, sc, t)
    ensures TombFrom(Unshare(a, x, scopeBytes, paidOrStamped, now).tombs, sc, t)
  {
    var tombs := Unshare(a, x, scopeBytes, paidOrStamped, now).tombs;
    var y :| y in a.tombs && y.scope == sc && y.unsharedAt.At? && y.unsharedAt.ms >= t;
    if x == sc {
      UnshareDates(a, sc, scopeBytes, paidOrStamped, now);
      assert TombFrom(tombs, sc, y.unsharedAt.ms);
    } else {
      var j :| 0 <= j < |a.tombs| && a.tombs[j] == y;
      assert tombs[j] == y && tombs[j] in tombs;
    }
  }

  lemma ReshareLeaves(a: Acct, scopes: seq<Scope>, es: seq<Entry>, sharedAt: map<Scope, Instant>, claim: Claim, sc: Scope, t: int)
    requires Parsable(a.tombs) && TombFrom(a.tombs, sc, t)
    requires !(sc in scopes && SharedAfter(sharedAt, sc, t) && Reshare(a, scopes, es, sharedAt, claim).1.Accepted?)
    ensures TombFrom(Reshare(a, scopes, es, sharedAt, claim).0.tombs, sc, t) && Parsable(Reshare(a, scopes, es, sharedAt, claim).0.tombs)
  {
    ReshareEffects(a, scopes, es, sharedAt, claim);
  }

  lemma CallStepTombs(w: World, c: nat, p: Pick)
    requires c in w.calls
    ensures Advance(w, c, p).acct.tombs == w.acct.tombs
  {
  }

  lemma ParsableStays(k: Kinds, w: World, st: Step)
    requires Legal(k, w, st) && Parsable(w.acct.tombs)
    ensures Parsable(Effect(w, st).acct.tombs)
  {
    match st
    case Go(c, p) => CallStepTombs(w, c, p);
    case UnshareStep(sc, bytes, paid, now) => UnshareDates(w.acct, sc, bytes, paid, now);
    case ReshareStep(scopes, es, sharedAt, claim) => ReshareEffects(w.acct, scopes, es, sharedAt, claim);
    case _ =>
  }

  lemma TombStays(k: Kinds, w: World, st: Step, sc: Scope, t: int)
    requires Legal(k, w, st) && Parsable(w.acct.tombs) && TombFrom(w.acct.tombs, sc, t) && !ResharesAfter(w, st, sc, t)
    ensures TombFrom(Effect(w, st).acct.tombs, sc, t)
  {
    match st
    case Go(c, p) => CallStepTombs(w, c, p);
    case UnshareStep(x, bytes, paid, now) => UnshareElsewhere(w.acct, x, bytes, paid, now, sc, t);
    case ReshareStep(scopes, es, sharedAt, claim) => ReshareLeaves(w.acct, scopes, es, sharedAt, claim, sc, t);
    case _ =>
  }

  lemma {:induction false} TombUntil(k: Kinds, ws: seq<World>, sts: seq<Step>, m: nat, i: nat, sc: Scope, t: int)
    requires Run(k, ws, sts) && m <= i < |ws| && Parsable(ws[m].acct.tombs) && TombFrom(ws[m].acct.tombs, sc, t)
    requires forall j :: m <= j < i ==> !ResharesAfter(ws[j], sts[j], sc, t)
    ensures Parsable(ws[i].acct.tombs) && TombFrom(ws[i].acct.tombs, sc, t)
    decreases i
  {
    if m < i {
      TombUntil(k, ws, sts, m, i - 1, sc, t);
      assert StepAt(k, ws, sts, i - 1);
      ParsableStays(k, ws[i - 1], sts[i - 1]);
      TombStays(k, ws[i - 1], sts[i - 1], sc, t);
    }
  }

  /**
   * Over any run: once a scope was unshared at `now` and a tombstone was left,
   * every checked push of it whose shared_at is not later than `now` is refused
   * and changes nothing, until one with a later shared_at was accepted.
   */
  lemma RevokedUntilReshared(k: Kinds, ws: seq<World>, sts: seq<Step>, m: nat, i: nat, sc: Scope)
    requires Run(k, ws, sts) && m < i < |sts| && sts[m].UnshareStep? && sts[m].sc == sc && Parsable(ws[m].acct.tombs)
    requires Tombstoned(ws[m + 1].acct.tombs, sc)
    requires forall j :: m < j < i ==> !ResharesAfter(ws[j], sts[j], sc, sts[m].now)
    requires sts[i].ReshareStep? && sc in sts[i].scopes && !SharedAfter(sts[i].sharedAt, sc, sts[m].now)
    ensures Reshare(ws[i].acct, sts[i].scopes, sts[i].es, sts[i].sharedAt, sts[i].claim).1.TombstoneConflict?
    ensures ws[i + 1].acct == ws[i].acct
  {
    assert StepAt(k, ws, sts, m) && StepAt(k, ws, sts, i);
    UnshareDates(ws[m].acct, sc, sts[m].scopeBytes, sts[m].paidOrStamped, sts[m].now);
    TombUntil(k, ws, sts, m + 1, i, sc, sts[m].now);
    ReshareEffects(ws[i].acct, sts[i].scopes, sts[i].es, sts[i].sharedAt, sts[i].claim);
  }

  /** Tombstones are always dated: from a store whose tombstones are, every later one is. */
  lemma {:induction false} TombstonesDated(k: Kinds, ws: seq<World>, sts: seq<Step>, i: nat)
    requires Run(k, ws, sts) && i < |ws| && Parsable(ws[0].acct.tombs)
    ensures Parsable(ws[i].acct.tombs)
  {
    if i > 0 {
      TombstonesDated(k, ws, sts, i - 1);
      assert StepAt(k, ws, sts, i - 1);
      ParsableStays(k, ws[i - 1], sts[i - 1]);
    }
  }

  // ---- the forget queue ----------------------------------------------------

  /** What an id is called after a step: an ack of it gives it its vault id. */
  function NameAfter(st: Step, id: Id): Id { if st.AckStep? && st.serverId == id then st.localId else id }

  function NameAt(sts: seq<Step>, i: nat, j: nat, id: Id): Id
    requires i <= j <= |sts|
    decreases j
  {
    if i == j then id else NameAfter(sts[j - 1], NameAt(sts, i, j - 1, id))
  }

  lemma CallStepForgets(w: World, c: nat, p: Pick)
    requires c in w.calls
    ensures w.acct.forgets <= Advance(w, c, p).acct.forgets
    ensures w.calls[c].ForgetSeen? ==> Advance(w, c, p).acct.forgets == w.acct.forgets + {w.calls[c].id}
    ensures !w.calls[c].ForgetSeen? ==> Advance(w, c, p).acct.forgets == w.acct.forgets
  {
  }

  lemma StaysQueued(k: Kinds, w: World, st: Step, id: Id)
    requires Legal(k, w, st) && id in w.acct.forgets && st != ForgetStep(id)
    ensures NameAfter(st, id) in Effect(w, st).acct.forgets
  {
    if st.Go? { CallStepForgets(w, st.c, st.pick); }
  }

  /** `memory_forget` queues the id of a stored row that is no project document, and nothing else. */
  lemma ForgetQueues(k: Kinds, ws: seq<World>, sts: seq<Step>, i: nat, c: nat)
    requires Run(k, ws, sts) && i < |sts| && sts[i].Go? && sts[i].c == c && c in ws[i].calls && ws[i].calls[c].ForgetSeen?
    ensures ws[i + 1].acct == ws[i].acct.(forgets := ws[i].acct.forgets + {ws[i].calls[c].id})
  {
    assert StepAt(k, ws, sts, i);
  }

  /** A queued forget stays queued, under its vault id once the row was acked, until that forget is applied. */
  lemma {:induction false} QueuedUntilApplied(k: Kinds, ws: seq<World>, sts: seq<Step>, i: nat, j: nat, id: Id)
    requires Run(k, ws, sts) && i <= j < |ws| && id in ws[i].acct.forgets
    requires forall m :: i <= m < j ==> sts[m] != ForgetStep(NameAt(sts, i, m, id))
    ensures NameAt(sts, i, j, id) in ws[j].acct.forgets
    decreases j
  {
    if i < j {
      QueuedUntilApplied(k, ws, sts, i, j - 1, id);
      assert StepAt(k, ws, sts, j - 1);
      StaysQueued(k, ws[j - 1], sts[j - 1], NameAt(sts, i, j - 1, id));
    }
  }

  /** Applying a forget takes the row and the queued id away. */
  lemma AppliedIsGone(k: Kinds, ws: seq<World>, sts: seq<Step>, i: nat, id: Id)
    requires Run(k, ws, sts) && i < |sts| && sts[i] == ForgetStep(id)
    ensures id !in ws[i + 1].acct.forgets && id !in ws[i + 1].acct.rows
    ensures forall x :: x != id ==> (x in ws[i + 1].acct.forgets <==> x in ws[i].acct.forgets) && (x in ws[i + 1].acct.rows <==> x in ws[i].acct.rows)
  {
    assert StepAt(k, ws, sts, i);
  }

  // ---- the drain -----------------------------------------------------------

  /** A call waits for its own next step. */
  lemma {:induction false} CallWaits(k: Kinds, ws: seq<World>, sts: seq<Step>, a: nat, b: nat, c: nat)
    requires Run(k, ws, sts) && a <= b < |ws| && c in ws[a].calls && forall m :: a <= m < b ==> !(sts[m].Go? && sts[m].c == c)
    ensures c in ws[b].calls && ws[b].calls[c] == ws[a].calls[c]
    decreases b
  {
    if a < b {
      CallWaits(k, ws, sts, a, b - 1, c);
      assert StepAt(k, ws, sts, b - 1);
      OtherStep(k, ws[b - 1], sts[b - 1], c);
    }
  }

  /** l, m and i are the three steps of one drain. */
  predicate DrainAt(ws: seq<World>, sts: seq<Step>, l: nat, m: nat, i: nat, c: nat)
    requires |ws| == |sts| + 1 && i < |sts|
  {
    && l < m < i && c in ws[l].calls && ws[l].calls[c].DrainAsked?
    && (forall j :: l <= j <= i ==> (sts[j].Go? && sts[j].c == c <==> j == l || j == m || j == i))
  }

  /** The row was waiting when the drain listed, and its scope revoked when it looked at the tombstones. */
  predicate ListedRevoked(ws: seq<World>, l: nat, m: nat, id: Id)
    requires l < |ws| && m < |ws|
  {
    exists r :: r in ws[l].acct.rows.Values && Undelivered(r) && r.entryId == id && Tombstoned(ws[m].acct.tombs, r.scope)
  }

  /** The drain deletes exactly the rows it listed as waiting in a scope it then found revoked, if they still wait. */
  lemma DrainDeletesExactly(k: Kinds, ws: seq<World>, sts: seq<Step>, l: nat, m: nat, i: nat, c: nat, id: Id)
    requires Run(k, ws, sts) && i < |sts| && DrainAt(ws, sts, l, m, i, c) && id in ws[i].acct.rows
    ensures id !in ws[i + 1].acct.rows <==> ws[i].acct.rows[id].pending && ListedRevoked(ws, l, m, id)
    ensures id in ws[i + 1].acct.rows ==> ws[i + 1].acct.rows[id] == ws[i].acct.rows[id]
  {
    assert StepAt(k, ws, sts, l) && StepAt(k, ws, sts, m) && StepAt(k, ws, sts, i);
    CallWaits(k, ws, sts, l + 1, m, c);
    CallWaits(k, ws, sts, m + 1, i, c);
    var listed := set r | r in ws[l].acct.rows.Values && Undelivered(r);
    assert ws[m].calls[c] == DrainListed(listed);
    assert ws[i].calls[c] == DrainPurging(set r | r in listed && Tombstoned(ws[m].acct.tombs, r.scope) :: r.entryId);
  }

  // ---- the vault order of a run --------------------------------------------

  /** The claim a step puts to the guard: every push's, and a checked push's unless a tombstone stops it first. */
  function ClaimOf(w: World, st: Step): Option<Claim> {
    if st.PushStep? then Some(st.claim)
    else if st.ReshareStep? && Conflicts(w.acct.tombs, ScopeSet(st.scopes), st.sharedAt) == {} then Some(st.claim)
    else None
  }

  /** The claims of the first i steps, in order. */
  function ClaimsOf(ws: seq<World>, sts: seq<Step>, i: nat): seq<Claim>
    requires |ws| == |sts| + 1 && i <= |sts|
  {
    if i == 0 then []
    else
      var c := ClaimOf(ws[i - 1], sts[i - 1]);
      ClaimsOf(ws, sts, i - 1) + if c.Some? then [c.value] else []
  }

  lemma CallStepOrder(w: World, c: nat, p: Pick)
    requires c in w.calls
    ensures Advance(w, c, p).acct.order == w.acct.order
  {
  }

  lemma StepOrder(k: Kinds, w: World, st: Step)
    requires Legal(k, w, st)
    ensures Effect(w, st).acct.order ==
      if ClaimOf(w, st).Some? && ClaimAccepted(w.acct.order, ClaimOf(w, st).value)
      then VaultOrder(ClaimOf(w, st).value.server, ClaimOf(w, st).value.version) else w.acct.order
  {
    if st.Go? { CallStepOrder(w, st.c, st.pick); }
  }

  /** In every run the order an account holds is the one its claims lead to, so what is said of runs of claims is said of it. */
  lemma {:induction false} OrderFollowsClaims(k: Kinds, ws: seq<World>, sts: seq<Step>, i: nat)
    requires Run(k, ws, sts) && i < |ws|
    ensures ws[i].acct.order == VaultOrderRuns.OrderAfter(ws[0].acct.order, ClaimsOf(ws, sts, i))
  {
    if i > 0 {
      OrderFollowsClaims(k, ws, sts, i - 1);
      assert StepAt(k, ws, sts, i - 1);
      StepOrder(k, ws[i - 1], sts[i - 1]);
      var c := ClaimOf(ws[i - 1], sts[i - 1]);
      if c.Some? {
        var cs := ClaimsOf(ws, sts, i - 1);
        assert (cs + [c.value])[..|cs|] == cs;
      } else {
        assert ClaimsOf(ws, sts, i) == ClaimsOf(ws, sts, i - 1);
      }
    }
  }

  /** A reset claim is always accepted, and the order is then its own. */
  lemma ResetAccepted(a: Acct, scopes: seq<Scope>, es: seq<Entry>, claim: Claim)
    requires claim.reset
    ensures var (b, r) := Push(a, scopes, es, claim); r.Accepted? && b.order == VaultOrder(claim.server, claim.version)
  {
  }
}
