/**
 * One account's shared rows on the connector as a value, and what each storage
 * operation does to it: write counters per scope, tombstones, queued forgets
 * and the accepted vault order. `ConnectorStorage` proves its methods against
 * these functions; `ProjectProtocol` interleaves them.
 */
module RowStore {
  import opened Options
  import opened ProjectHead

  /** An ISO timestamp as Date.parse reads it. */
  datatype Instant = Unparsable | At(ms: int)
  datatype Tombstone = Tombstone(scope: Scope, unsharedAt: Instant)
  datatype VaultOrder = VaultOrder(server: Option<string>, version: Option<nat>)
  datatype Claim = Claim(server: Option<string>, version: Option<nat>, reset: bool)

  /** One pushed entry. */
  datatype Entry = Entry(entryId: Id, scope: Scope, mtype: MemoryType, content: string)
  /** One connector-born row. */
  datatype Insert = Insert(entryId: Id, mtype: MemoryType, content: string, base: Option<Id>)

  datatype Acct = Acct(
    rows: map<Id, Row>, seqs: map<Scope, nat>, tombs: seq<Tombstone>,
    forgets: set<Id>, order: VaultOrder)

  const NO_ORDER := VaultOrder(None, None)
  const MAX_TOMBSTONES_PER_ACCOUNT := 1000
  const MAX_NEW_TOMBSTONE_SCOPE_BYTES := 1024

  // ---- reading -------------------------------------------------------------

  function Counter(seqs: map<Scope, nat>, sc: Scope): nat {
    if sc in seqs then seqs[sc] else 0
  }

  predicate Undelivered(r: Row) { r.origin.Connector? && r.pending }

  function ScopeRows(a: Acct, sc: Scope): (s: set<Row>) {
    set r | r in a.rows.Values && r.scope == sc
  }

  predicate Tombstoned(tombs: seq<Tombstone>, sc: Scope) {
    exists t :: t in tombs && t.scope == sc
  }

  /** Rows sit under their own id. */
  predicate Keyed(rows: map<Id, Row>) {
    forall id :: id in rows ==> rows[id].entryId == id
  }

  predicate Holds(a: Acct, r: Row) {
    r.entryId in a.rows && a.rows[r.entryId] == r
  }

  lemma ScopeRowsHold(a: Acct, sc: Scope)
    requires Keyed(a.rows)
    ensures forall r :: r in ScopeRows(a, sc) <==> Holds(a, r) && r.scope == sc
  {
  }

  // ---- counters ------------------------------------------------------------

  /** Each counter of `scopes` up by one, created when absent. */
  function Bump(seqs: map<Scope, nat>, scopes: set<Scope>): (r: map<Scope, nat>)
    ensures r.Keys == seqs.Keys + scopes
    ensures forall sc :: sc in r ==> r[sc] == Counter(seqs, sc) + if sc in scopes then 1 else 0
  {
    map sc | sc in seqs.Keys + scopes :: Counter(seqs, sc) + if sc in scopes then 1 else 0
  }

  lemma BumpOneMore(seqs: map<Scope, nat>, done: set<Scope>, sc: Scope)
    requires sc !in done
    ensures Bump(Bump(seqs, done), {sc}) == Bump(seqs, done + {sc})
  {
    var l, r := Bump(Bump(seqs, done), {sc}), Bump(seqs, done + {sc});
    assert l.Keys == r.Keys;
    forall x | x in l ensures l[x] == r[x] { }
  }

  // ---- pushes --------------------------------------------------------------

  /** Whether the guard records this claim (ADR 0063 D5). */
  predicate ClaimAccepted(cur: VaultOrder, claim: Claim) {
    claim.reset ||
    match claim.server
    case None => cur.server.None?
    case Some(_) =>
      cur.server.None? || cur.server != claim.server ||
      (if cur.version.Some? then cur.version.value else 0) <= (if claim.version.Some? then claim.version.value else 0)
  }

  function PushedRow(e: Entry, seqs: map<Scope, nat>, scopes: set<Scope>): Row {
    Row(e.entryId, e.scope, e.mtype, e.content, Vault, false, None, if e.scope in scopes then Counter(seqs, e.scope) else 0)
  }

  /** The rows after the payload's upserts, in payload order. */
  function Upserted(rows: map<Id, Row>, es: seq<Entry>, seqs: map<Scope, nat>, scopes: set<Scope>): map<Id, Row> {
    if es == [] then rows
    else
      var e := es[|es| - 1];
      Upserted(rows, es[..|es| - 1], seqs, scopes)[e.entryId := PushedRow(e, seqs, scopes)]
  }

  predicate Names(es: seq<Entry>, id: Id) {
    exists e :: e in es && e.entryId == id
  }

  /** A row of a pushed scope that the payload leaves out, unless the user has not pulled it yet. */
  predicate Omitted(id: Id, r: Row, scopes: set<Scope>, keep: set<(Scope, Id)>) {
    !Undelivered(r) && r.scope in scopes && (r.scope, id) !in keep
  }

  function ScopeSet(scopes: seq<Scope>): set<Scope> { set s | s in scopes }

  function KeepSet(es: seq<Entry>): set<(Scope, Id)> { set e | e in es :: (e.scope, e.entryId) }

  lemma UpsertedNext(rows: map<Id, Row>, es: seq<Entry>, i: nat, seqs: map<Scope, nat>, scopes: set<Scope>)
    requires i < |es|
    ensures Upserted(rows, es[..i + 1], seqs, scopes) == Upserted(rows, es[..i], seqs, scopes)[es[i].entryId := PushedRow(es[i], seqs, scopes)]
  {
    assert es[..i + 1][..i] == es[..i];
  }

  lemma KeepNext(es: seq<Entry>, i: nat)
    requires i < |es|
    ensures KeepSet(es[..i + 1]) == KeepSet(es[..i]) + {(es[i].scope, es[i].entryId)}
  {
    assert es[..i + 1] == es[..i] + [es[i]];
  }

  /** `replaceScopes` once its claim is accepted. */
  function Replaced(a: Acct, scopes: seq<Scope>, es: seq<Entry>, claim: Claim): Acct {
    var pushed := ScopeSet(scopes);
    var seqs := Bump(a.seqs, pushed);
    var up := Upserted(a.rows, es, seqs, pushed);
    a.(rows := map id | id in up && !Omitted(id, up[id], pushed, KeepSet(es)) :: up[id],
       seqs := seqs,
       order := VaultOrder(claim.server, claim.version))
  }

  datatype PushResult = Accepted | StalePush | TombstoneConflict

  function Push(a: Acct, scopes: seq<Scope>, es: seq<Entry>, claim: Claim): (Acct, PushResult) {
    if ClaimAccepted(a.order, claim) then (Replaced(a, scopes, es, claim), Accepted) else (a, StalePush)
  }

  /** A tombstone older than or as old as the accepted shared_at goes. */
  predicate ShouldKeepTombstone(unsharedAt: Instant, acceptedSharedAt: Instant) {
    unsharedAt.Unparsable? || acceptedSharedAt.Unparsable? || unsharedAt.ms > acceptedSharedAt.ms
  }

  predicate KeptTombstone(t: Tombstone, scopes: set<Scope>, sharedAt: map<Scope, Instant>) {
    t.scope !in sharedAt || t.scope !in scopes || ShouldKeepTombstone(t.unsharedAt, sharedAt[t.scope])
  }

  function KeptTombs(tombs: seq<Tombstone>, scopes: set<Scope>, sharedAt: map<Scope, Instant>): (r: seq<Tombstone>)
    ensures forall t :: t in r <==> t in tombs && KeptTombstone(t, scopes, sharedAt)
  {
    if tombs == [] then []
    else
      var n := |tombs| - 1;
      KeptTombs(tombs[..n], scopes, sharedAt) + if KeptTombstone(tombs[n], scopes, sharedAt) then [tombs[n]] else []
  }

  /** The latest tombstone of a scope, as the conflict check gathers it. */
  function Latest(tombs: seq<Tombstone>, sc: Scope): Option<Instant> {
    if tombs == [] then None
    else
      var t := tombs[|tombs| - 1];
      Later(Latest(tombs[..|tombs| - 1], sc), t, sc)
  }

  function Later(prev: Option<Instant>, t: Tombstone, sc: Scope): Option<Instant> {
    if t.scope != sc then prev
    else if prev.None? then Some(t.unsharedAt)
    else if t.unsharedAt.Unparsable? then prev
    else if prev.value.Unparsable? || t.unsharedAt.ms >= prev.value.ms then Some(t.unsharedAt)
    else prev
  }

  /** Tombstoned, and the client's shared_at is missing, unparsable or not strictly later. */
  predicate Blocked(tombs: seq<Tombstone>, sc: Scope, sharedAt: map<Scope, Instant>) {
    var tomb := Latest(tombs, sc);
    tomb.Some? &&
    (sc !in sharedAt || sharedAt[sc].Unparsable? || tomb.value.Unparsable? || sharedAt[sc].ms <= tomb.value.ms)
  }

  function Conflicts(tombs: seq<Tombstone>, scopes: set<Scope>, sharedAt: map<Scope, Instant>): set<Scope> {
    set sc | sc in scopes && Blocked(tombs, sc, sharedAt)
  }

  function Reshare(a: Acct, scopes: seq<Scope>, es: seq<Entry>, sharedAt: map<Scope, Instant>, claim: Claim): (Acct, PushResult) {
    if Conflicts(a.tombs, ScopeSet(scopes), sharedAt) != {} then (a, TombstoneConflict)
    else
      var (b, res) := Push(a, scopes, es, claim);
      if res.Accepted? then (b.(tombs := KeptTombs(a.tombs, ScopeSet(scopes), sharedAt)), Accepted) else (a, res)
  }

  // ---- connector-born rows -------------------------------------------------

  function InsertedRow(r: Insert, sc: Scope, seqNo: nat): Row {
    Row(r.entryId, sc, r.mtype, r.content, Connector, true, r.base, seqNo)
  }

  function Inserted(rows: map<Id, Row>, ins: seq<Insert>, sc: Scope, seqNo: nat): map<Id, Row> {
    if ins == [] then rows
    else
      var r := ins[|ins| - 1];
      Inserted(rows, ins[..|ins| - 1], sc, seqNo)[r.entryId := InsertedRow(r, sc, seqNo)]
  }

  /** `writeConnectorRows`: compare the counter, move it, insert, drop the replaced pending row. */
  function Write(a: Acct, sc: Scope, expected: Option<nat>, ins: seq<Insert>, replaced: Option<Id>): (Acct, Option<nat>) {
    if expected.Some? && (sc !in a.seqs || a.seqs[sc] != expected.value) then (a, None)
    else
      var seqs := Bump(a.seqs, {sc});
      var rows := Inserted(a.rows, ins, sc, seqs[sc]);
      var kept := if replaced.Some? && |ins| > 0 && replaced.value in rows && rows[replaced.value].pending
                  then rows - {replaced.value} else rows;
      (a.(rows := kept, seqs := seqs), Some(seqs[sc]))
  }

  function Doomed(a: Acct, ids: seq<Id>): set<Id> {
    set id | id in ids && id in a.rows && a.rows[id].pending
  }

  function Discard(a: Acct, ids: seq<Id>): (Acct, nat) {
    var doomed := Doomed(a, ids);
    (a.(rows := a.rows - doomed, seqs := Bump(a.seqs, set id | id in doomed :: a.rows[id].scope)), |doomed|)
  }

  // ---- acks, forgets, unshares ---------------------------------------------

  function Ack(a: Acct, serverId: Id, localId: Id): Acct {
    var forgets := if serverId in a.forgets then a.forgets - {serverId} + {localId} else a.forgets;
    if serverId !in a.rows then a.(forgets := forgets)
    else
      var row := a.rows[serverId];
      var seqs := Bump(a.seqs, {row.scope});
      a.(forgets := forgets, seqs := seqs,
         rows := (a.rows - {serverId})[localId := row.(entryId := localId, pending := false, writeSeq := seqs[row.scope])])
  }

  function Forget(a: Acct, id: Id): Acct {
    a.(forgets := a.forgets - {id},
       seqs := if id in a.rows then Bump(a.seqs, {a.rows[id].scope}) else a.seqs,
       rows := a.rows - {id})
  }

  function Enqueue(a: Acct, id: Id): Acct { a.(forgets := a.forgets + {id}) }

  function InScope(a: Acct, sc: Scope): set<Id> {
    set id | id in a.rows && a.rows[id].scope == sc
  }

  /** The first tombstone of a scope, as an index; |tombs| when there is none. */
  function FirstTomb(tombs: seq<Tombstone>, sc: Scope): (i: nat)
    ensures i <= |tombs|
    ensures i < |tombs| ==> tombs[i].scope == sc
    ensures forall j :: 0 <= j < i ==> tombs[j].scope != sc
  {
    if tombs == [] || tombs[0].scope == sc then 0 else 1 + FirstTomb(tombs[1..], sc)
  }

  function UnshareTombs(tombs: seq<Tombstone>, sc: Scope, now: int, mayWriteNew: bool): seq<Tombstone> {
    var i := FirstTomb(tombs, sc);
    if i < |tombs| then
      if ShouldKeepTombstone(tombs[i].unsharedAt, At(now)) then tombs
      else tombs[i := Tombstone(sc, At(now))]
    else if mayWriteNew then tombs + [Tombstone(sc, At(now))]
    else tombs
  }

  /** A new tombstone needs deleted rows, or a short name, room, and a paying (or once stamped) account. */
  predicate MayWriteTomb(a: Acct, sc: Scope, scopeBytes: nat, paidOrStamped: bool) {
    InScope(a, sc) != {} ||
    (scopeBytes <= MAX_NEW_TOMBSTONE_SCOPE_BYTES && |a.tombs| < MAX_TOMBSTONES_PER_ACCOUNT && paidOrStamped)
  }

  function Unshare(a: Acct, sc: Scope, scopeBytes: nat, paidOrStamped: bool, now: int): Acct {
    a.(rows := a.rows - InScope(a, sc),
       seqs := if sc in a.seqs then Bump(a.seqs, {sc}) else a.seqs,
       tombs := UnshareTombs(a.tombs, sc, now, MayWriteTomb(a, sc, scopeBytes, paidOrStamped)))
  }

  /** `readScopeSeq` creates the counter, so that a racing unshare moves it too. */
  function ReadSeq(a: Acct, sc: Scope): (Acct, nat) {
    if sc in a.seqs then (a, a.seqs[sc]) else (a.(seqs := a.seqs[sc := 0]), 0)
  }

  // ---- what the folds contain ----------------------------------------------

  /** The last payload entry with this id decides the row; other rows stay. */
  lemma {:induction false} UpsertedAt(rows: map<Id, Row>, es: seq<Entry>, seqs: map<Scope, nat>, scopes: set<Scope>, id: Id)
    ensures id in Upserted(rows, es, seqs, scopes) <==> id in rows || Names(es, id)
    ensures !Names(es, id) && id in rows ==> Upserted(rows, es, seqs, scopes)[id] == rows[id]
    ensures Names(es, id) ==>
      exists i :: 0 <= i < |es| && LastNamed(es, i, id) && Upserted(rows, es, seqs, scopes)[id] == PushedRow(es[i], seqs, scopes)
  {
    if es != [] {
      var n := |es| - 1;
      UpsertedAt(rows, es[..n], seqs, scopes, id);
      assert forall e :: e in es <==> e in es[..n] || e == es[n];
      if es[n].entryId == id {
        assert LastNamed(es, n, id);
      } else if Names(es, id) {
        assert Names(es[..n], id);
        var i :| 0 <= i < n && LastNamed(es[..n], i, id) && Upserted(rows, es[..n], seqs, scopes)[id] == PushedRow(es[..n][i], seqs, scopes);
        assert es[..n][i] == es[i];
        assert LastNamed(es, i, id) by {
          forall j | i < j < |es| ensures es[j].entryId != id { if j < n { assert es[..n][j] == es[j]; } }
        }
      }
    }
  }

  predicate LastNamed(es: seq<Entry>, i: nat, id: Id) {
    i < |es| && es[i].entryId == id && forall j :: i < j < |es| ==> es[j].entryId != id
  }

  lemma {:induction false} InsertedAt(rows: map<Id, Row>, ins: seq<Insert>, sc: Scope, seqNo: nat, id: Id)
    ensures id in Inserted(rows, ins, sc, seqNo) <==> id in rows || exists r :: r in ins && r.entryId == id
    ensures (forall r :: r in ins ==> r.entryId != id) && id in rows ==> Inserted(rows, ins, sc, seqNo)[id] == rows[id]
    ensures (exists r :: r in ins && r.entryId == id) ==>
      exists r :: r in ins && r.entryId == id && Inserted(rows, ins, sc, seqNo)[id] == InsertedRow(r, sc, seqNo)
  {
    if ins != [] {
      var n := |ins| - 1;
      InsertedAt(rows, ins[..n], sc, seqNo, id);
      assert forall r :: r in ins <==> r in ins[..n] || r == ins[n];
    }
  }

  // ---- what a push leaves --------------------------------------------------

  /**
   * After an accepted push the pushed scope holds exactly the payload's rows
   * for it (the last entry of an id decides) and the undelivered connector
   * rows the payload does not name.
   */
  lemma PushLeavesExactly(a: Acct, scopes: seq<Scope>, es: seq<Entry>, claim: Claim, sc: Scope, r: Row)
    requires Keyed(a.rows) && sc in scopes && ClaimAccepted(a.order, claim)
    requires forall e :: e in es ==> e.scope in scopes
    ensures r in ScopeRows(Push(a, scopes, es, claim).0, sc) <==>
      (exists i :: 0 <= i < |es| && LastNamed(es, i, r.entryId) && es[i].scope == sc &&
                   r == Row(es[i].entryId, sc, es[i].mtype, es[i].content, Vault, false, None, Counter(a.seqs, sc) + 1)) ||
      (r.scope == sc && Holds(a, r) && Undelivered(r) && !Names(es, r.entryId))
  {
    var b := Push(a, scopes, es, claim).0;
    var pushed := ScopeSet(scopes);
    var seqs := Bump(a.seqs, pushed);
    KeyedPush(a, scopes, es, claim);
    ScopeRowsHold(b, sc);
    UpsertedAt(a.rows, es, seqs, pushed, r.entryId);
    if Names(es, r.entryId) {
      var i :| 0 <= i < |es| && LastNamed(es, i, r.entryId) && Upserted(a.rows, es, seqs, pushed)[r.entryId] == PushedRow(es[i], seqs, pushed);
      assert (es[i].scope, r.entryId) in KeepSet(es) by { assert es[i] in es; }
      forall j | 0 <= j < |es| && LastNamed(es, j, r.entryId) ensures j == i {
        assert !(i < j) && !(j < i);
      }
      if Holds(b, r) && r.scope == sc {
        assert r == PushedRow(es[i], seqs, pushed);
      }
    } else {
      forall i | 0 <= i < |es| ensures !LastNamed(es, i, r.entryId) { assert es[i] in es; }
      forall e | e in es ensures e.entryId != r.entryId { }
      if Holds(b, r) && r.scope == sc {
        assert (r.scope, r.entryId) !in KeepSet(es);
      }
    }
  }

  lemma KeyedPush(a: Acct, scopes: seq<Scope>, es: seq<Entry>, claim: Claim)
    requires Keyed(a.rows)
    ensures Keyed(Replaced(a, scopes, es, claim).rows)
  {
    var pushed := ScopeSet(scopes);
    var seqs := Bump(a.seqs, pushed);
    forall id | id in Upserted(a.rows, es, seqs, pushed) ensures Upserted(a.rows, es, seqs, pushed)[id].entryId == id {
      UpsertedAt(a.rows, es, seqs, pushed, id);
    }
  }

  /** The server writes its tombstones from its own clock, so they parse. */
  predicate Parsable(tombs: seq<Tombstone>) {
    forall t :: t in tombs ==> t.unsharedAt.At?
  }

  lemma {:induction false} LatestBounds(tombs: seq<Tombstone>, sc: Scope)
    requires Parsable(tombs)
    ensures Latest(tombs, sc).Some? <==> Tombstoned(tombs, sc)
    ensures Latest(tombs, sc).Some? ==> Latest(tombs, sc).value.At?
    ensures forall t :: t in tombs && t.scope == sc ==> t.unsharedAt.ms <= Latest(tombs, sc).value.ms
    ensures Latest(tombs, sc).Some? ==> Tombstone(sc, Latest(tombs, sc).value) in tombs
  {
    if tombs != [] {
      var n := |tombs| - 1;
      assert forall t :: t in tombs <==> t in tombs[..n] || t == tombs[n];
      LatestBounds(tombs[..n], sc);
    }
  }

  /**
   * A refused push changes nothing. One is refused for tombstones exactly when
   * a pushed scope has a tombstone and no strictly later shared_at. An accepted
   * one clears every tombstone of its scopes and no other, and each one it
   * clears is strictly older than the shared_at sent for its scope.
   */
  lemma ReshareEffects(a: Acct, scopes: seq<Scope>, es: seq<Entry>, sharedAt: map<Scope, Instant>, claim: Claim)
    requires Parsable(a.tombs)
    ensures var (b, res) := Reshare(a, scopes, es, sharedAt, claim);
      && (!res.Accepted? ==> b == a)
      && (res.TombstoneConflict? <==>
            exists t :: t in a.tombs && t.scope in scopes &&
                        (t.scope in sharedAt && sharedAt[t.scope].At? ==> sharedAt[t.scope].ms <= t.unsharedAt.ms))
      && (res.Accepted? ==> b == Push(a, scopes, es, claim).0.(tombs := b.tombs))
      && (res.Accepted? ==> forall t :: t in b.tombs <==> t in a.tombs && t.scope !in scopes)
      && (forall t :: t in a.tombs && t !in b.tombs ==>
            t.scope in scopes && t.scope in sharedAt && sharedAt[t.scope].At? && sharedAt[t.scope].ms > t.unsharedAt.ms)
  {
    var (b, res) := Reshare(a, scopes, es, sharedAt, claim);
    var pushed := ScopeSet(scopes);
    forall sc ensures sc in pushed && Blocked(a.tombs, sc, sharedAt) <==> sc in Conflicts(a.tombs, pushed, sharedAt) { }
    forall t | t in a.tombs ensures Latest(a.tombs, t.scope).Some? { LatestBounds(a.tombs, t.scope); }
    if res.TombstoneConflict? {
      var sc :| sc in Conflicts(a.tombs, pushed, sharedAt);
      LatestBounds(a.tombs, sc);
      var t := Tombstone(sc, Latest(a.tombs, sc).value);
      assert t in a.tombs && t.scope in scopes;
    } else {
      forall t | t in a.tombs && t.scope in scopes
        ensures t.scope in sharedAt && sharedAt[t.scope].At? && sharedAt[t.scope].ms > t.unsharedAt.ms
      {
        LatestBounds(a.tombs, t.scope);
        assert !Blocked(a.tombs, t.scope, sharedAt);
      }
    }
  }
}

/** The vault order over any run of claims (ADR 0063 D5). */
module VaultOrderRuns {
  import opened Options
  import opened RowStore

  function OrderAfter(o: VaultOrder, cs: seq<Claim>): VaultOrder {
    if cs == [] then o
    else
      var before := OrderAfter(o, cs[..|cs| - 1]);
      var c := cs[|cs| - 1];
      if ClaimAccepted(before, c) then VaultOrder(c.server, c.version) else before
  }

  predicate AcceptedAt(o: VaultOrder, cs: seq<Claim>, i: nat)
    requires i < |cs|
  {
    ClaimAccepted(OrderAfter(o, cs[..i]), cs[i])
  }

  /** An absent version reads as 0. */
  function VersionOf(c: Claim): nat { if c.version.Some? then c.version.value else 0 }

  lemma OrderStep(o: VaultOrder, cs: seq<Claim>, j: nat)
    requires j < |cs|
    ensures OrderAfter(o, cs[..j + 1]) ==
            if AcceptedAt(o, cs, j) then VaultOrder(cs[j].server, cs[j].version) else OrderAfter(o, cs[..j])
  {
    assert cs[..j + 1][..j] == cs[..j];
  }

  /** While no other server and no reset comes between, the server's order only grows. */
  lemma {:induction false} ServerOrderGrows(o: VaultOrder, cs: seq<Claim>, i: nat, j: nat)
    requires i < j <= |cs| && AcceptedAt(o, cs, i) && cs[i].server.Some?
    requires forall m :: i < m < j && AcceptedAt(o, cs, m) ==> !cs[m].reset && cs[m].server == cs[i].server
    ensures OrderAfter(o, cs[..j]).server == cs[i].server
    ensures VersionOf(cs[i]) <= VersionOf(Claim(None, OrderAfter(o, cs[..j]).version, false))
  {
    OrderStep(o, cs, j - 1);
    if j > i + 1 { ServerOrderGrows(o, cs, i, j - 1); }
  }

  /**
   * Two accepted claims naming one server carry non-decreasing versions when
   * every claim accepted after the first, up to the second, names that server
   * and is no reset.
   */
  lemma ClaimsOfOneServerAreOrdered(o: VaultOrder, cs: seq<Claim>, i: nat, j: nat)
    requires i < j < |cs| && AcceptedAt(o, cs, i) && AcceptedAt(o, cs, j) && cs[i].server.Some?
    requires forall m :: i < m <= j && AcceptedAt(o, cs, m) ==> !cs[m].reset && cs[m].server == cs[i].server
    ensures VersionOf(cs[i]) <= VersionOf(cs[j])
  {
    ServerOrderGrows(o, cs, i, j);
  }

  /** A claim naming another server in between lets an older version of the first one through. */
  lemma AnotherServerForgetsTheFirst()
    ensures exists cs: seq<Claim> :: |cs| == 3 && AcceptedAt(NO_ORDER, cs, 0) && AcceptedAt(NO_ORDER, cs, 1) && AcceptedAt(NO_ORDER, cs, 2) &&
                            cs[0].server.Some? && cs[0].server == cs[2].server && VersionOf(cs[2]) < VersionOf(cs[0]) &&
                            !cs[0].reset && !cs[1].reset && !cs[2].reset
  {
    var cs := [Claim(Some("a"), Some(5), false), Claim(Some("b"), Some(1), false), Claim(Some("a"), Some(3), false)];
    OrderStep(NO_ORDER, cs, 0);
    OrderStep(NO_ORDER, cs, 1);
    assert AcceptedAt(NO_ORDER, cs, 0) && AcceptedAt(NO_ORDER, cs, 1) && AcceptedAt(NO_ORDER, cs, 2);
  }

  predicate LastAccepted(o: VaultOrder, cs: seq<Claim>, i: nat) {
    i < |cs| && AcceptedAt(o, cs, i) && forall j :: i < j < |cs| ==> !AcceptedAt(o, cs, j)
  }

  /** The order held is the last accepted claim's. */
  lemma {:induction false} OrderIsLastAccepted(o: VaultOrder, cs: seq<Claim>) returns (last: Option<nat>)
    ensures last.None? ==> OrderAfter(o, cs) == o && forall i :: 0 <= i < |cs| ==> !AcceptedAt(o, cs, i)
    ensures last.Some? ==> LastAccepted(o, cs, last.value) &&
                           OrderAfter(o, cs) == VaultOrder(cs[last.value].server, cs[last.value].version)
  {
    last := None;
    if cs != [] {
      var n := |cs| - 1;
      if AcceptedAt(o, cs, n) { return Some(n); }
      last := OrderIsLastAccepted(o, cs[..n]);
      forall i | 0 <= i < n ensures AcceptedAt(o, cs[..n], i) == AcceptedAt(o, cs, i) {
        assert cs[..n][..i] == cs[..i];
      }
    }
  }

  lemma LastAcceptedUnique(o: VaultOrder, cs: seq<Claim>, i: nat, j: nat)
    requires LastAccepted(o, cs, i) && LastAccepted(o, cs, j)
    ensures i == j
  {
    assert !(i < j) && !(j < i);
  }

  /**
   * Once any claim was accepted, a claim that names a server and is no reset
   * is accepted exactly when the last accepted claim names another server, or
   * none, or carries no later version. So an older claim of a server gets
   * through exactly when the order held no longer names it at a later version.
   */
  lemma ClaimAcceptedIff(o: VaultOrder, cs: seq<Claim>, i: nat, c: Claim)
    requires i < |cs| && AcceptedAt(o, cs, i) && c.server.Some? && !c.reset
    ensures ClaimAccepted(OrderAfter(o, cs), c) <==>
            exists l: nat :: LastAccepted(o, cs, l) && (cs[l].server != c.server || VersionOf(cs[l]) <= VersionOf(c))
  {
    var last := OrderIsLastAccepted(o, cs);
    forall l: nat | LastAccepted(o, cs, l) ensures l == last.value { LastAcceptedUnique(o, cs, l, last.value); }
  }

  function HeldVersion(o: VaultOrder): nat { if o.version.Some? then o.version.value else 0 }

  /** No claim of this server older than v is accepted, short of a reset. */
  ghost predicate OlderRefused(o: VaultOrder, server: Option<string>, v: nat) {
    forall c: Claim :: c.server == server && !c.reset && VersionOf(c) < v ==> !ClaimAccepted(o, c)
  }

  /** The guard protects a version of a server exactly while the order held names that server at it or later. */
  lemma OlderRefusedIff(o: VaultOrder, server: Option<string>, v: nat)
    requires server.Some? && v > 0
    ensures OlderRefused(o, server, v) <==> o.server == server && v <= HeldVersion(o)
  {
    var c := Claim(server, Some(v - 1), false);
    assert VersionOf(c) < v;
    if OlderRefused(o, server, v) { assert !ClaimAccepted(o, c); }
  }

  /** Over a run: an accepted version stays protected exactly when the last accepted claim names its server at it or later. */
  lemma AcceptedVersionProtectedIff(o: VaultOrder, cs: seq<Claim>, i: nat)
    requires i < |cs| && AcceptedAt(o, cs, i) && cs[i].server.Some? && VersionOf(cs[i]) > 0
    ensures OlderRefused(OrderAfter(o, cs), cs[i].server, VersionOf(cs[i])) <==>
            exists l: nat :: LastAccepted(o, cs, l) && cs[l].server == cs[i].server && VersionOf(cs[i]) <= VersionOf(cs[l])
  {
    OlderRefusedIff(OrderAfter(o, cs), cs[i].server, VersionOf(cs[i]));
    var last := OrderIsLastAccepted(o, cs);
    forall l: nat | LastAccepted(o, cs, l) ensures l == last.value { LastAcceptedUnique(o, cs, l, last.value); }
  }

  /**
   * A claim without a server (an old client's) is accepted, short of a reset,
   * exactly when the last accepted claim named no server either.
   */
  lemma NoClaimAcceptedIff(cs: seq<Claim>, c: Claim)
    requires c.server.None? && !c.reset
    ensures ClaimAccepted(OrderAfter(NO_ORDER, cs), c) <==>
            forall i: nat :: LastAccepted(NO_ORDER, cs, i) ==> cs[i].server.None?
  {
    var last := OrderIsLastAccepted(NO_ORDER, cs);
    forall i: nat | LastAccepted(NO_ORDER, cs, i) ensures last == Some(i) {
      if last.Some? { assert !(i < last.value) && !(last.value < i); }
    }
  }

  /** Once an accepted claim named a server, a bare claim is refused until a reset that names none is accepted. */
  lemma {:induction false} BareClaimsStayRefused(o: VaultOrder, cs: seq<Claim>, i: nat, c: Claim)
    requires i < |cs| && AcceptedAt(o, cs, i) && cs[i].server.Some? && c.server.None? && !c.reset
    requires forall m :: i < m < |cs| && AcceptedAt(o, cs, m) ==> !(cs[m].reset && cs[m].server.None?)
    ensures !ClaimAccepted(OrderAfter(o, cs), c)
  {
    StaysNamed(o, cs, i, |cs|);
    assert cs[..|cs|] == cs;
  }

  lemma {:induction false} StaysNamed(o: VaultOrder, cs: seq<Claim>, i: nat, j: nat)
    requires i < j <= |cs| && AcceptedAt(o, cs, i) && cs[i].server.Some?
    requires forall m :: i < m < j && AcceptedAt(o, cs, m) ==> !(cs[m].reset && cs[m].server.None?)
    ensures OrderAfter(o, cs[..j]).server.Some?
  {
    OrderStep(o, cs, j - 1);
    if j > i + 1 { StaysNamed(o, cs, i, j - 1); }
  }
}
