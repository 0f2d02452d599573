/**
 * The entitlement bridge (ADR 0019, 0081): the sync server attests a
 * subscriber, the connector binds the attestation's nonce to one account and
 * stamps that account for a week. The nonce is symbolic: it names a subscriber
 * and a 24-hour window, and only attestations that were minted verify.
 */
module Entitlement {
  import opened Options

  const ENTITLEMENT_TTL_SEC := 60 * 60
  const ENTITLEMENT_NONCE_WINDOW_SEC := 24 * 60 * 60
  const ENTITLEMENT_NONCE_WINDOW_MS := 24 * 60 * 60 * 1000
  const ENTITLEMENT_GRACE_MS := 7 * 24 * 60 * 60 * 1000

  type Account = string

  /** An attestation of an active subscriber, minted at a second of the sync server's clock. */
  datatype Attestation = Attestation(subscriber: string, mint: nat)
  datatype Nonce = Nonce(subscriber: string, window: nat)

  function Exp(a: Attestation): nat { a.mint + ENTITLEMENT_TTL_SEC }

  /** `entitlementNonce`. */
  function NonceOf(a: Attestation): Nonce { Nonce(a.subscriber, a.mint / ENTITLEMENT_NONCE_WINDOW_SEC) }

  /** `verifyEntitlement` on a minted attestation. */
  predicate Verifies(a: Attestation, nowMs: nat) { Exp(a) > nowMs / 1000 }

  // ---- the connector's tables ----------------------------------------------

  datatype Held = Held(account: Account, expiresAt: nat)
  type Nonces = map<Nonce, Held>

  predicate Alive(nonces: Nonces, n: Nonce, now: nat) { n in nonces && nonces[n].expiresAt > now }

  function Purged(nonces: Nonces, now: nat): Nonces { map n | n in nonces && nonces[n].expiresAt > now :: nonces[n] }

  /** `bindEntitlementNonce`: a held nonce is its holder's until it expires. */
  function Bound(nonces: Nonces, n: Nonce, account: Account, expiresAt: nat, now: nat): (Nonces, bool) {
    if Alive(nonces, n, now) then (nonces, nonces[n].account == account)
    else (Purged(nonces, now)[n := Held(account, expiresAt)], true)
  }

  function Extended(until: map<Account, nat>, account: Account, t: nat): map<Account, nat> {
    if t > (if account in until then until[account] else 0) then until[account := t] else until
  }

  datatype Tables = Tables(nonces: Nonces, until: map<Account, nat>)

  /** What one presented attestation does; true when it stamped the account. */
  function Presented(s: Tables, account: Account, a: Attestation, verifyMs: nat, now: nat): (Tables, bool) {
    if !Verifies(a, verifyMs) then (s, false)
    else
      var (nonces, ok) := Bound(s.nonces, NonceOf(a), account, 1000 * Exp(a) + ENTITLEMENT_NONCE_WINDOW_MS, now);
      (Tables(nonces, if ok then Extended(s.until, account, now + ENTITLEMENT_GRACE_MS) else s.until), ok)
  }

  class EntitlementTables {
    var nonces: Nonces
    var until: map<Account, nat>

    constructor ()
      ensures nonces == map[] && until == map[]
    {
      nonces, until := map[], map[];
    }

    /** Expired nonces go whenever a new one is bound. */
    method Purge(now: nat)
      modifies this`nonces
      ensures nonces == Purged(old(nonces), now)
    {
      ghost var was := nonces;
      var keys := nonces.Keys;
      while keys != {}
        invariant keys <= was.Keys && nonces.Keys <= was.Keys
        invariant forall n :: n in nonces ==> nonces[n] == was[n]
        invariant forall n :: n in was ==> (n in nonces <==> n in keys || was[n].expiresAt > now)
        decreases keys
      {
        var n :| n in keys;
        if nonces[n].expiresAt <= now { nonces := nonces - {n}; }
        keys := keys - {n};
      }
    }

    method BindEntitlementNonce(n: Nonce, account: Account, expiresAt: nat, now: nat) returns (ok: bool)
      modifies this`nonces
      ensures (nonces, ok) == Bound(old(nonces), n, account, expiresAt, now)
    {
      if n in nonces && nonces[n].expiresAt > now { return nonces[n].account == account; }
      Purge(now);
      nonces := nonces[n := Held(account, expiresAt)];
      ok := true;
    }

    method SetEntitledUntil(account: Account, t: nat)
      modifies this`until
      ensures until == Extended(old(until), account, t)
    {
      var prev := if account in until then until[account] else 0;
      if t > prev { until := until[account := t]; }
    }

    /** `stampEntitlement`. */
    method StampEntitlement(account: Account, a: Attestation, verifyMs: nat, now: nat) returns (stamped: bool)
      modifies this
      ensures (Tables(nonces, until), stamped) == Presented(old(Tables(nonces, until)), account, a, verifyMs, now)
    {
      if !Verifies(a, verifyMs) { return false; }
      stamped := BindEntitlementNonce(NonceOf(a), account, 1000 * Exp(a) + ENTITLEMENT_NONCE_WINDOW_MS, now);
      if stamped { SetEntitledUntil(account, now + ENTITLEMENT_GRACE_MS); }
    }
  }

  // ---- runs of presentations -----------------------------------------------

  /** A stamp that was given: to whom, for which attestation, when. */
  datatype Stamp = Stamp(account: Account, att: Attestation, at: nat)
  datatype World = World(tables: Tables, clock: nat, stamps: seq<Stamp>)

  /** One request: the attestation is verified and bound without an await in between. */
  datatype Ask = Ask(account: Account, att: Attestation, verifyMs: nat, now: nat)

  function Step(w: World, q: Ask): World {
    var (tables, ok) := Presented(w.tables, q.account, q.att, q.verifyMs, q.now);
    World(tables, q.now, if ok then w.stamps + [Stamp(q.account, q.att, q.now)] else w.stamps)
  }

  /** The connector's clock does not go back, and at most a second passes between the two readings of a request. */
  predicate AskOk(w: World, q: Ask) { w.clock <= q.verifyMs <= q.now <= q.verifyMs + 1000 }

  ghost predicate StepAt(ws: seq<World>, qs: seq<Ask>, i: nat)
    requires |ws| == |qs| + 1 && i < |qs|
  {
    AskOk(ws[i], qs[i]) && ws[i + 1] == Step(ws[i], qs[i])
  }

  ghost predicate Run(ws: seq<World>, qs: seq<Ask>) {
    && |ws| == |qs| + 1 && ws[0].tables == Tables(map[], map[]) && ws[0].stamps == []
    && forall i :: 0 <= i < |qs| ==> StepAt(ws, qs, i)
  }

  /** The instant from which no attestation of a window verifies any more. */
  function Over(window: nat): nat { 1000 * (ENTITLEMENT_NONCE_WINDOW_SEC * (window + 1) + ENTITLEMENT_TTL_SEC) }

  lemma WindowEnds(a: Attestation)
    ensures 1000 * Exp(a) + 1000 <= Over(NonceOf(a).window) <= 1000 * Exp(a) + ENTITLEMENT_NONCE_WINDOW_MS
  {
  }

  /** A verified attestation is presented before its window is over. */
  lemma VerifiedBefore(w: World, q: Ask)
    requires AskOk(w, q) && Verifies(q.att, q.verifyMs)
    ensures q.now < Over(NonceOf(q.att).window)
  {
    WindowEnds(q.att);
  }

  /** A stamped nonce stays with its account until its window is over. */
  ghost predicate Kept(w: World, s: Stamp) {
    var n := NonceOf(s.att);
    w.clock >= Over(n.window) || (n in w.tables.nonces && w.tables.nonces[n].account == s.account)
  }

  ghost predicate NoncesLast(nonces: Nonces) { forall n: Nonce :: n in nonces ==> nonces[n].expiresAt >= Over(n.window) }

  ghost predicate Inv(w: World) { NoncesLast(w.tables.nonces) && forall i :: 0 <= i < |w.stamps| ==> Kept(w, w.stamps[i]) }

  lemma StepNonces(w: World, q: Ask)
    requires NoncesLast(w.tables.nonces)
    ensures NoncesLast(Step(w, q).tables.nonces)
  {
    WindowEnds(q.att);
  }

  lemma StepKept(w: World, q: Ask, s: Stamp)
    requires NoncesLast(w.tables.nonces) && AskOk(w, q) && Kept(w, s)
    ensures Kept(Step(w, q), s)
  {
    if Verifies(q.att, q.verifyMs) { VerifiedBefore(w, q); }
  }

  lemma NewKept(w: World, q: Ask)
    requires NoncesLast(w.tables.nonces) && Presented(w.tables, q.account, q.att, q.verifyMs, q.now).1
    ensures Kept(Step(w, q), Stamp(q.account, q.att, q.now))
  {
  }

  lemma StepKeeps(w: World, q: Ask)
    requires Inv(w) && AskOk(w, q)
    ensures Inv(Step(w, q))
  {
    StepNonces(w, q);
    var v := Step(w, q);
    forall i | 0 <= i < |v.stamps| ensures Kept(v, v.stamps[i]) {
      if i < |w.stamps| { StepKept(w, q, w.stamps[i]); } else { NewKept(w, q); }
    }
  }

  lemma {:induction false} RunKeeps(ws: seq<World>, qs: seq<Ask>, i: nat)
    requires Run(ws, qs) && i < |ws|
    ensures Inv(ws[i])
  {
    if i > 0 {
      RunKeeps(ws, qs, i - 1);
      assert StepAt(ws, qs, i - 1);
      StepKeeps(ws[i - 1], qs[i - 1]);
    }
  }

  // ---- one window, one account ---------------------------------------------

  ghost predicate OneAccount(stamps: seq<Stamp>) {
    forall i, j :: 0 <= i < |stamps| && 0 <= j < |stamps| && NonceOf(stamps[i].att) == NonceOf(stamps[j].att) ==>
      stamps[i].account == stamps[j].account
  }

  /** A stamp goes to the account that any earlier stamp of the same window went to. */
  lemma StampFollows(w: World, q: Ask, s: Stamp)
    requires AskOk(w, q) && Kept(w, s) && NoncesLast(w.tables.nonces) && NonceOf(s.att) == NonceOf(q.att)
    requires Presented(w.tables, q.account, q.att, q.verifyMs, q.now).1
    ensures s.account == q.account
  {
    VerifiedBefore(w, q);
  }

  /** Over any run, one subscriber's attestations minted in one 24-hour window stamp at most one account. */
  lemma {:induction false} OneAccountPerWindow(ws: seq<World>, qs: seq<Ask>, n: nat)
    requires Run(ws, qs) && n < |ws|
    ensures OneAccount(ws[n].stamps)
  {
    if n > 0 {
      OneAccountPerWindow(ws, qs, n - 1);
      assert StepAt(ws, qs, n - 1);
      RunKeeps(ws, qs, n - 1);
      var w, q := ws[n - 1], qs[n - 1];
      if Presented(w.tables, q.account, q.att, q.verifyMs, q.now).1 {
        forall i | 0 <= i < |w.stamps| && NonceOf(w.stamps[i].att) == NonceOf(q.att) ensures w.stamps[i].account == q.account {
          StampFollows(w, q, w.stamps[i]);
        }
      }
    }
  }

  // ---- who is stamped ------------------------------------------------------

  /** An attestation verifies exactly for the hour after it was minted. */
  lemma VerifiesIff(a: Attestation, nowMs: nat)
    ensures Verifies(a, nowMs) <==> nowMs < 1000 * a.mint + 1000 * ENTITLEMENT_TTL_SEC
  {
  }

  /** Every nonce held was bound by a stamp of its holder. */
  ghost predicate HeldFromStamps(w: World) { forall n: Nonce :: n in w.tables.nonces ==> HasStamp(w.stamps, n, w.tables.nonces[n].account) }

  predicate HasStamp(stamps: seq<Stamp>, n: Nonce, account: Account) {
    exists i :: 0 <= i < |stamps| && NonceOf(stamps[i].att) == n && stamps[i].account == account
  }

  lemma HasStampSnoc(stamps: seq<Stamp>, s: Stamp, n: Nonce, account: Account)
    ensures HasStamp(stamps, n, account) ==> HasStamp(stamps + [s], n, account)
    ensures HasStamp(stamps + [s], NonceOf(s.att), s.account)
  {
    var r := stamps + [s];
    assert r[|stamps|] == s;
    if HasStamp(stamps, n, account) {
      var i :| 0 <= i < |stamps| && NonceOf(stamps[i].att) == n && stamps[i].account == account;
      assert r[i] == stamps[i];
    }
  }

  lemma {:induction false} NoncesFromStamps(ws: seq<World>, qs: seq<Ask>, n: nat)
    requires Run(ws, qs) && n < |ws|
    ensures HeldFromStamps(ws[n])
  {
    if n > 0 {
      NoncesFromStamps(ws, qs, n - 1);
      assert StepAt(ws, qs, n - 1);
      var w, q := ws[n - 1], qs[n - 1];
      forall x: Nonce | x in ws[n].tables.nonces ensures HasStamp(ws[n].stamps, x, ws[n].tables.nonces[x].account) {
        if x in w.tables.nonces { HasStampSnoc(w.stamps, Stamp(q.account, q.att, q.now), x, w.tables.nonces[x].account); }
        HasStampSnoc(w.stamps, Stamp(q.account, q.att, q.now), x, q.account);
      }
    }
  }

  /** No earlier stamp of this subscriber and window went to another account. */
  predicate NobodyElse(stamps: seq<Stamp>, n: Nonce, account: Account) {
    forall i :: 0 <= i < |stamps| && NonceOf(stamps[i].att) == n ==> stamps[i].account == account
  }

  /**
   * Over any run an attestation stamps the account that presents it if and only
   * if it verifies and no earlier stamp of its subscriber and window went to
   * another account; so its holder is stamped as often as it presents one.
   */
  lemma StampedIff(ws: seq<World>, qs: seq<Ask>, i: nat)
    requires Run(ws, qs) && i < |qs|
    ensures var q := qs[i];
      ws[i + 1].stamps == ws[i].stamps + (if Verifies(q.att, q.verifyMs) && NobodyElse(ws[i].stamps, NonceOf(q.att), q.account)
                                          then [Stamp(q.account, q.att, q.now)] else [])
  {
    var w, q := ws[i], qs[i];
    assert StepAt(ws, qs, i);
    RunKeeps(ws, qs, i);
    NoncesFromStamps(ws, qs, i);
    if Verifies(q.att, q.verifyMs) {
      if Presented(w.tables, q.account, q.att, q.verifyMs, q.now).1 {
        forall j | 0 <= j < |w.stamps| && NonceOf(w.stamps[j].att) == NonceOf(q.att) ensures w.stamps[j].account == q.account {
          StampFollows(w, q, w.stamps[j]);
        }
      } else {
        assert HasStamp(w.stamps, NonceOf(q.att), w.tables.nonces[NonceOf(q.att)].account);
      }
    }
  }

  // ---- at most nine accounts at once ---------------------------------------

  /** The accounts with a live stamp from this subscriber. */
  function LiveAccounts(stamps: seq<Stamp>, subscriber: string, t: nat): set<Account> {
    set s | s in stamps && s.att.subscriber == subscriber && s.at + ENTITLEMENT_GRACE_MS > t :: s.account
  }

  /** Accounts that each go back to a window, no two to the same one, are no more than the windows. */
  lemma {:induction false} AccountsByWindow(stamps: seq<Stamp>, accounts: set<Account>, subscriber: string, low: nat, count: nat)
    requires OneAccount(stamps)
    requires forall a :: a in accounts ==> exists s :: s in stamps && FromWindow(s, a, subscriber, low, count)
    ensures |accounts| <= count
    decreases count
  {
    if count == 0 {
      assert forall s, a :: !FromWindow(s, a, subscriber, low, 0);
    } else {
      var last := low + count - 1;
      var others := accounts - AccountsAt(stamps, subscriber, last);
      forall a | a in others ensures exists s :: s in stamps && FromWindow(s, a, subscriber, low, count - 1) {
        var s :| s in stamps && FromWindow(s, a, subscriber, low, count);
        assert FromWindow(s, a, subscriber, low, count - 1);
      }
      AccountsByWindow(stamps, others, subscriber, low, count - 1);
      AtMostOneAt(stamps, subscriber, last);
      UnionSize(accounts, AccountsAt(stamps, subscriber, last));
    }
  }

  predicate FromWindow(s: Stamp, a: Account, subscriber: string, low: nat, count: nat) {
    s.account == a && s.att.subscriber == subscriber && low <= NonceOf(s.att).window < low + count
  }

  function AccountsAt(stamps: seq<Stamp>, subscriber: string, window: nat): set<Account> {
    set s | s in stamps && NonceOf(s.att) == Nonce(subscriber, window) :: s.account
  }

  lemma AtMostOneAt(stamps: seq<Stamp>, subscriber: string, window: nat)
    requires OneAccount(stamps)
    ensures |AccountsAt(stamps, subscriber, window)| <= 1
  {
    var at := AccountsAt(stamps, subscriber, window);
    if at != {} {
      var a :| a in at;
      forall b | b in at ensures b == a { SameAt(stamps, subscriber, window, a, b); }
      assert at == {a};
    }
  }

  lemma SameAt(stamps: seq<Stamp>, subscriber: string, window: nat, a: Account, b: Account)
    requires OneAccount(stamps) && a in AccountsAt(stamps, subscriber, window) && b in AccountsAt(stamps, subscriber, window)
    ensures a == b
  {
    var i :| 0 <= i < |stamps| && NonceOf(stamps[i].att) == Nonce(subscriber, window) && stamps[i].account == a;
    var j :| 0 <= j < |stamps| && NonceOf(stamps[j].att) == Nonce(subscriber, window) && stamps[j].account == b;
  }

  lemma UnionSize(a: set<Account>, b: set<Account>)
    requires |b| <= 1
    ensures |a| <= |a - b| + 1
  {
    assert a == (a - b) + (a * b);
    assert |a * b| <= |b| by { SubsetSize(a * b, b); }
  }

  lemma {:induction false} SubsetSize(a: set<Account>, b: set<Account>)
    requires a <= b
    ensures |a| <= |b|
  {
    if a != {} {
      var x :| x in a;
      SubsetSize(a - {x}, b - {x});
    }
  }

  /** A stamp is given before the attestation is a second past its expiry, and with agreeing clocks not before it was minted. */
  predicate Fresh(s: Stamp, clock: nat) { s.at < 1000 * Exp(s.att) + 1000 && s.at <= clock }

  lemma {:induction false} StampsFresh(ws: seq<World>, qs: seq<Ask>, n: nat, i: nat)
    requires Run(ws, qs) && n < |ws| && i < |ws[n].stamps|
    ensures Fresh(ws[n].stamps[i], ws[n].clock)
  {
    if n > 0 {
      assert StepAt(ws, qs, n - 1);
      if i < |ws[n - 1].stamps| { StampsFresh(ws, qs, n - 1, i); }
    }
  }

  /** Every live stamp goes back to one of nine windows. */
  lemma LiveWindows(s: Stamp, t: nat)
    requires 1000 * s.att.mint <= s.at < 1000 * Exp(s.att) + 1000 && s.at <= t < s.at + ENTITLEMENT_GRACE_MS
    ensures t / ENTITLEMENT_NONCE_WINDOW_MS - 8 <= NonceOf(s.att).window <= t / ENTITLEMENT_NONCE_WINDOW_MS
  {
  }

  /** When the two clocks agree, at no instant do more than nine accounts hold a live stamp from one subscriber. */
  lemma AtMostNineAccounts(ws: seq<World>, qs: seq<Ask>, n: nat, subscriber: string, t: nat)
    requires Run(ws, qs) && n < |ws| && ws[n].clock <= t
    requires forall i :: 0 <= i < |ws[n].stamps| ==> 1000 * ws[n].stamps[i].att.mint <= ws[n].stamps[i].at
    ensures |LiveAccounts(ws[n].stamps, subscriber, t)| <= 9
  {
    var stamps := ws[n].stamps;
    var top := t / ENTITLEMENT_NONCE_WINDOW_MS;
    var low := if top >= 8 then top - 8 else 0;
    OneAccountPerWindow(ws, qs, n);
    forall a | a in LiveAccounts(stamps, subscriber, t) ensures exists s :: s in stamps && FromWindow(s, a, subscriber, low, 9) {
      var i :| 0 <= i < |stamps| && stamps[i].att.subscriber == subscriber && stamps[i].at + ENTITLEMENT_GRACE_MS > t && stamps[i].account == a;
      StampsFresh(ws, qs, n, i);
      LiveWindows(stamps[i], t);
      assert FromWindow(stamps[i], a, subscriber, low, 9);
    }
    AccountsByWindow(stamps, LiveAccounts(stamps, subscriber, t), subscriber, low, 9);
  }

  // ---- the stamp an account holds ------------------------------------------

  predicate HasLive(stamps: seq<Stamp>, account: Account, t: nat) {
    exists i :: 0 <= i < |stamps| && stamps[i].account == account && stamps[i].at + ENTITLEMENT_GRACE_MS > t
  }

  lemma HasLiveSnoc(stamps: seq<Stamp>, s: Stamp, account: Account, t: nat)
    ensures HasLive(stamps + [s], account, t) <==> HasLive(stamps, account, t) || (s.account == account && s.at + ENTITLEMENT_GRACE_MS > t)
  {
    var r := stamps + [s];
    assert r[|stamps|] == s;
    if HasLive(stamps, account, t) {
      var i :| 0 <= i < |stamps| && stamps[i].account == account && stamps[i].at + ENTITLEMENT_GRACE_MS > t;
      assert r[i] == stamps[i];
    }
  }

  /** An account is entitled at an instant exactly when it was given a stamp that is still live. */
  lemma {:induction false} EntitledIffLive(ws: seq<World>, qs: seq<Ask>, n: nat, account: Account, t: nat)
    requires Run(ws, qs) && n < |ws|
    ensures (account in ws[n].tables.until && ws[n].tables.until[account] > t) <==> HasLive(ws[n].stamps, account, t)
  {
    if n > 0 {
      EntitledIffLive(ws, qs, n - 1, account, t);
      assert StepAt(ws, qs, n - 1);
      HasLiveSnoc(ws[n - 1].stamps, Stamp(qs[n - 1].account, qs[n - 1].att, qs[n - 1].now), account, t);
    }
  }
}
