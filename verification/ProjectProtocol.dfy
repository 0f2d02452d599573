/**
 * The cloud project protocol (ADR 0050, 0063): `project_create`,
 * `project_update`, `memory_forget` and the `/client/pending` drain as programs
 * whose awaits are steps, interleaved with every storage operation a device or
 * another tool can run. One account; rows are read decrypted.
 */
module ProjectProtocol {
  import opened Options
  import opened ProjectHead
  import opened RowStore

  const MAX_SHARED_ENTRIES := 5000

  /** What an id names for good: a scope, and whether it names project documents. */
  datatype Kind = Kind(scope: Scope, doc: bool)
  type Kinds = Id -> Kind

  predicate IsDoc(r: Row) { r.mtype.Working? && IsProjectScope(r.scope) }

  /** One tool or route call between two awaits. */
  datatype Call =
    // project_create: tombstones, counter, rows, write
    | CreateAsked(scope: Scope)
    | CreateAllowed(scope: Scope)
    | CreateCounted(scope: Scope, seqNo: nat, revokedAtCount: bool)
    | CreateDecided(scope: Scope, seqNo: nat, revokedAtCount: bool, text: string)
    // project_update: tombstones, counter, forgets, tombstones, rows, cap, write
    | UpdateAsked(scope: Scope, rev: Id)
    | UpdateAllowed(scope: Scope, rev: Id)
    | UpdateCounted(scope: Scope, rev: Id, seqNo: nat)
    | UpdateHidden(scope: Scope, rev: Id, seqNo: nat, hidden: set<Id>)
    | UpdateUnshared(scope: Scope, rev: Id, seqNo: nat, hidden: set<Id>, unshared: bool)
    | UpdateDecided(scope: Scope, seqNo: nat, read: set<Row>, head: Row, text: string, archive: Option<string>)
    | UpdateRoom(scope: Scope, seqNo: nat, read: set<Row>, head: Row, text: string, archive: Option<string>)
    // memory_forget: row, queue
    | ForgetAsked(id: Id)
    | ForgetSeen(id: Id)
    // GET /client/pending: pending rows, tombstones, discard
    | DrainAsked
    | DrainListed(listed: set<Row>)
    | DrainPurging(purged: set<Id>)
    | Landed(scope: Scope, revision: Id)
    | Ended

  datatype World = World(
    acct: Acct,
    calls: map<nat, Call>,
    used: set<Id>,        // every id a row ever had
    bornRevoked: set<Id>) // ids of rows written while their scope's tombstone stood

  /** What a call's step leaves open: refusals, fresh ids, the built text. */
  datatype Pick = Pick(refuse: bool, id: Id, archiveId: Id, text: string, archive: Option<string>, view: View, ids: seq<Id>)

  datatype Step =
    | PushStep(scopes: seq<Scope>, es: seq<Entry>, claim: Claim)
    | ReshareStep(scopes: seq<Scope>, es: seq<Entry>, sharedAt: map<Scope, Instant>, claim: Claim)
    | DiscardStep(ids: seq<Id>)
    | AckStep(serverId: Id, localId: Id)
    | ForgetStep(id: Id)
    | UnshareStep(sc: Scope, scopeBytes: nat, paidOrStamped: bool, now: int)
    | RememberStep(sc: Scope, ins: Insert)
    | Begin(c: nat, call: Call)
    | Go(c: nat, pick: Pick)

  // ---- effects -------------------------------------------------------------

  function EntryIds(es: seq<Entry>): set<Id> { set e | e in es :: e.entryId }

  /** The rows `visibleEntries` shows in one scope. */
  function Visible(rows: set<Row>, hidden: set<Id>, unshared: bool): set<Row> {
    set r | r in rows && r.entryId !in hidden && !unshared
  }

  /** The base of a document written on this head. */
  function BaseOn(head: Row): Option<Id> {
    if head.pending then head.base else Some(head.entryId)
  }

  function ReplacedBy(head: Row): Option<Id> {
    if head.pending then Some(head.entryId) else None
  }

  function UpdateInserts(u: Call, p: Pick): seq<Insert>
    requires u.UpdateRoom?
  {
    [Insert(p.id, Working, u.text, BaseOn(u.head))] +
    if u.archive.Some? then [Insert(p.archiveId, Episodic, u.archive.value, BaseOn(u.head))] else []
  }

  function RowsNeeded(u: Call): nat
    requires u.UpdateDecided?
  {
    (if u.head.pending then 0 else 1) + if u.archive.Some? then 1 else 0
  }

  function With(w: World, c: nat, call: Call): World { w.(calls := w.calls[c := call]) }

  function CreateInserts(text: string, id: Id): seq<Insert> {
    [Insert(id, Working, text, Some(BASE_NEW))]
  }

  /** A write that may land: on success the call is done and its ids are used. */
  function WriteEffect(w: World, c: nat, sc: Scope, seqNo: nat, ins: seq<Insert>, replaced: Option<Id>): World
    requires |ins| > 0
  {
    var (acct, written) := Write(w.acct, sc, Some(seqNo), ins, replaced);
    if written.None? then With(w, c, Ended)
    else
      var ids := set r | r in ins :: r.entryId;
      World(acct, w.calls[c := Landed(sc, ins[0].entryId)], w.used + ids,
            if Tombstoned(w.acct.tombs, sc) then w.bornRevoked + ids else w.bornRevoked)
  }

  function Advance(w: World, c: nat, p: Pick): World
    requires c in w.calls
  {
    var a := w.acct;
    match w.calls[c]
    case CreateAsked(sc) => With(w, c, if Tombstoned(a.tombs, sc) then Ended else CreateAllowed(sc))
    case CreateAllowed(sc) =>
      var (b, n) := ReadSeq(a, sc);
      With(w, c, CreateCounted(sc, n, Tombstoned(a.tombs, sc))).(acct := b)
    case CreateCounted(sc, n, t) =>
      if (exists r :: r in ScopeRows(a, sc) && r.mtype.Working?) || |a.rows| + 1 > MAX_SHARED_ENTRIES || p.refuse then With(w, c, Ended)
      else With(w, c, CreateDecided(sc, n, t, p.text))
    case CreateDecided(sc, n, t, text) => WriteEffect(w, c, sc, n, CreateInserts(text, p.id), None)
    case UpdateAsked(sc, rev) => With(w, c, if Tombstoned(a.tombs, sc) then Ended else UpdateAllowed(sc, rev))
    case UpdateAllowed(sc, rev) =>
      var (b, n) := ReadSeq(a, sc);
      With(w, c, UpdateCounted(sc, rev, n)).(acct := b)
    case UpdateCounted(sc, rev, n) => With(w, c, UpdateHidden(sc, rev, n, a.forgets))
    case UpdateHidden(sc, rev, n, hidden) => With(w, c, UpdateUnshared(sc, rev, n, hidden, Tombstoned(a.tombs, sc)))
    case UpdateUnshared(sc, rev, n, hidden, unshared) =>
      if p.view.head.HeadRow? && p.view.head.row.entryId == rev && !p.refuse
      then With(w, c, UpdateDecided(sc, n, ScopeRows(a, sc), p.view.head.row, p.text, p.archive))
      else With(w, c, Ended)
    case UpdateDecided(sc, n, read, head, text, archive) =>
      if RowsNeeded(w.calls[c]) > 0 && |a.rows| + RowsNeeded(w.calls[c]) > MAX_SHARED_ENTRIES then With(w, c, Ended)
      else With(w, c, UpdateRoom(sc, n, read, head, text, archive))
    case UpdateRoom(sc, n, read, head, text, archive) =>
      WriteEffect(w, c, sc, n, UpdateInserts(w.calls[c], p), ReplacedBy(head))
    case ForgetAsked(id) => With(w, c, if id in a.rows && !IsDoc(a.rows[id]) then ForgetSeen(id) else Ended)
    case ForgetSeen(id) => With(w, c, Ended).(acct := Enqueue(a, id))
    case DrainAsked => With(w, c, DrainListed(set r | r in a.rows.Values && Undelivered(r)))
    case DrainListed(listed) => With(w, c, DrainPurging(set r | r in listed && Tombstoned(a.tombs, r.scope) :: r.entryId))
    case DrainPurging(purged) => With(w, c, Ended).(acct := Discard(a, p.ids).0)
    case Landed(_, _) => w
    case Ended => w
  }

  function Effect(w: World, st: Step): World
    requires st.Go? ==> st.c in w.calls
  {
    var a := w.acct;
    match st
    case PushStep(scopes, es, claim) => w.(acct := Push(a, scopes, es, claim).0, used := w.used + EntryIds(es))
    case ReshareStep(scopes, es, sharedAt, claim) => w.(acct := Reshare(a, scopes, es, sharedAt, claim).0, used := w.used + EntryIds(es))
    case DiscardStep(ids) => w.(acct := Discard(a, ids).0)
    case AckStep(s, l) => w.(acct := Ack(a, s, l), used := w.used + {l})
    case ForgetStep(id) => w.(acct := Forget(a, id))
    case UnshareStep(sc, bytes, paid, now) => w.(acct := Unshare(a, sc, bytes, paid, now))
    case RememberStep(sc, ins) =>
      w.(acct := Write(a, sc, None, [ins], None).0, used := w.used + {ins.entryId},
         bornRevoked := if Tombstoned(a.tombs, sc) then w.bornRevoked + {ins.entryId} else w.bornRevoked)
    case Begin(c, call) => With(w, c, call)
    case Go(c, pick) => Advance(w, c, pick)
  }

  // ---- which steps can happen ----------------------------------------------

  predicate LegalEntries(k: Kinds, scopes: seq<Scope>, es: seq<Entry>) {
    forall e :: e in es ==> e.scope in scopes && k(e.entryId) == Kind(e.scope, e.mtype.Working? && IsProjectScope(e.scope))
  }

  ghost predicate LegalPick(k: Kinds, w: World, call: Call, p: Pick) {
    match call
    case CreateDecided(sc, _, _, _) => p.id !in w.used && k(p.id) == Kind(sc, true)
    case UpdateUnshared(sc, _, _, hidden, unshared) => IsView(Visible(ScopeRows(w.acct, sc), hidden, unshared), p.view)
    case UpdateRoom(sc, _, _, _, _, archive) =>
      && p.id !in w.used && k(p.id) == Kind(sc, true)
      && (archive.Some? ==> p.archiveId !in w.used && p.archiveId != p.id && k(p.archiveId) == Kind(sc, false))
    case DrainPurging(purged) => forall id :: id in p.ids <==> id in purged
    case Landed(_, _) => false
    case Ended => false
    case _ => true
  }

  ghost predicate Legal(k: Kinds, w: World, st: Step) {
    match st
    case PushStep(scopes, es, _) => LegalEntries(k, scopes, es)
    case ReshareStep(scopes, es, _, _) => LegalEntries(k, scopes, es)
    case AckStep(s, l) => k(s) == k(l)
    case RememberStep(sc, ins) =>
      // memory_remember refuses a working memory in a project scope
      && !(ins.mtype.Working? && IsProjectScope(sc)) && ins.base.None?
      && ins.entryId !in w.used && k(ins.entryId) == Kind(sc, false)
    case Begin(c, call) =>
      c !in w.calls &&
      match call {
        case CreateAsked(sc) => IsProjectScope(sc)
        case UpdateAsked(sc, _) => IsProjectScope(sc)
        case ForgetAsked(_) => true
        case DrainAsked => true
        case _ => false
      }
    case Go(c, pick) => c in w.calls && LegalPick(k, w, w.calls[c], pick)
    case DiscardStep(_) => true
    case ForgetStep(_) => true
    case UnshareStep(_, _, _, _) => true
  }

  // ---- what every state keeps ----------------------------------------------

  /** At most one pending document per base revision in each project scope. */
  ghost predicate OnePerBase(a: Acct) {
    forall r, q ::
      (Holds(a, r) && Holds(a, q) && IsDoc(r) && IsDoc(q) && r.pending && q.pending &&
       r.scope == q.scope && r.base == q.base && r.base.Some?) ==> r == q
  }

  ghost predicate AcctInv(k: Kinds, a: Acct) {
    && Keyed(a.rows)
    && (forall id :: id in a.rows ==> k(id) == Kind(a.rows[id].scope, IsDoc(a.rows[id])))
    && (forall id :: id in a.rows ==> a.rows[id].writeSeq <= Counter(a.seqs, a.rows[id].scope))
    && (forall id :: id in a.forgets ==> !k(id).doc)
    && OnePerBase(a)
  }

  /** The same rows in the scope, under the same tombstone or lack of one. */
  ghost predicate SameFace(a: Acct, b: Acct, sc: Scope) {
    && (forall r: Row :: r.scope == sc ==> (Holds(a, r) <==> Holds(b, r)))
    && (Tombstoned(a.tombs, sc) <==> Tombstoned(b.tombs, sc))
  }

  /** Counters only grow, and a scope whose counter stays keeps its face. */
  ghost predicate Moves(a: Acct, b: Acct) {
    forall sc :: sc in a.seqs ==>
      sc in b.seqs && a.seqs[sc] <= b.seqs[sc] && (a.seqs[sc] == b.seqs[sc] ==> SameFace(a, b, sc))
  }

  /** Pending rows are never re-created under a used id. */
  ghost predicate PendingAreOldOrFresh(a: Acct, b: Acct, used: set<Id>) {
    forall id :: id in b.rows && b.rows[id].pending ==>
      (id in a.rows && a.rows[id] == b.rows[id]) || id !in used
  }

  /** No pending row appears or changes. */
  ghost predicate NoNewPending(a: Acct, b: Acct) {
    forall id :: id in b.rows && b.rows[id].pending ==> id in a.rows && a.rows[id] == b.rows[id]
  }

  ghost predicate Born(w: World) {
    && w.acct.rows.Keys <= w.used
    && forall id :: id in w.acct.rows && w.acct.rows[id].pending && Tombstoned(w.acct.tombs, w.acct.rows[id].scope) ==> id in w.bornRevoked
  }

  predicate CounterAt(a: Acct, sc: Scope, n: nat) { sc in a.seqs && a.seqs[sc] == n }

  predicate Since(a: Acct, sc: Scope, n: nat) { sc in a.seqs && n <= a.seqs[sc] }

  /** What a call between two awaits still knows about the store. */
  ghost predicate CallInv(k: Kinds, w: World, call: Call) {
    var a := w.acct;
    match call
    case CreateAsked(sc) => IsProjectScope(sc)
    case CreateAllowed(sc) => IsProjectScope(sc)
    case CreateCounted(sc, n, t) => IsProjectScope(sc) && Since(a, sc, n) && (CounterAt(a, sc, n) ==> t == Tombstoned(a.tombs, sc))
    case CreateDecided(sc, n, t, _) =>
      && IsProjectScope(sc) && Since(a, sc, n)
      && (CounterAt(a, sc, n) ==> t == Tombstoned(a.tombs, sc) && forall r :: Holds(a, r) && r.scope == sc ==> !r.mtype.Working?)
    case UpdateAsked(sc, _) => IsProjectScope(sc)
    case UpdateAllowed(sc, _) => IsProjectScope(sc)
    case UpdateCounted(sc, _, n) => IsProjectScope(sc) && Since(a, sc, n)
    case UpdateHidden(sc, _, n, hidden) => IsProjectScope(sc) && Since(a, sc, n) && NoDocs(k, hidden)
    case UpdateUnshared(sc, _, n, hidden, unshared) =>
      IsProjectScope(sc) && Since(a, sc, n) && NoDocs(k, hidden) && (CounterAt(a, sc, n) ==> unshared == Tombstoned(a.tombs, sc))
    case UpdateDecided(sc, n, read, head, _, _) => UpdateKnows(a, sc, n, read, head)
    case UpdateRoom(sc, n, read, head, _, _) => UpdateKnows(a, sc, n, read, head)
    case ForgetSeen(id) => !k(id).doc
    case DrainListed(listed) => forall r :: r in listed ==> r.entryId in w.used && k(r.entryId).scope == r.scope
    case DrainPurging(purged) =>
      forall id :: id in purged ==> id in w.used && (id in a.rows && a.rows[id].pending ==> id in w.bornRevoked)
    case _ => true
  }

  ghost predicate NoDocs(k: Kinds, ids: set<Id>) { forall id :: id in ids ==> !k(id).doc }

  ghost predicate UpdateKnows(a: Acct, sc: Scope, n: nat, read: set<Row>, head: Row) {
    && IsProjectScope(sc) && Since(a, sc, n)
    && IsHead(read, HeadRow(head))
    && (CounterAt(a, sc, n) ==> !Tombstoned(a.tombs, sc) && forall r :: r in read <==> Holds(a, r) && r.scope == sc)
  }

  ghost predicate Inv(k: Kinds, w: World) {
    AcctInv(k, w.acct) && Born(w) && forall c :: c in w.calls ==> CallInv(k, w, w.calls[c])
  }

  // ---- the operations move what they change --------------------------------

  lemma PushKeeps(k: Kinds, a: Acct, scopes: seq<Scope>, es: seq<Entry>, claim: Claim, used: set<Id>)
    requires AcctInv(k, a) && LegalEntries(k, scopes, es) && a.rows.Keys <= used
    ensures var b := Push(a, scopes, es, claim).0;
      AcctInv(k, b) && Moves(a, b) && NoNewPending(a, b) && b.rows.Keys <= used + EntryIds(es) && b.tombs == a.tombs
  {
    if ClaimAccepted(a.order, claim) {
      var b := Replaced(a, scopes, es, claim);
      var pushed := ScopeSet(scopes);
      forall id
        ensures Names(es, id) ==> id in b.rows && !b.rows[id].pending && id in EntryIds(es) && b.rows[id].scope in pushed && k(id) == Kind(b.rows[id].scope, IsDoc(b.rows[id])) &&
                                  b.rows[id].entryId == id && b.rows[id].writeSeq == Counter(b.seqs, b.rows[id].scope)
        ensures !Names(es, id) ==> (id in b.rows <==> id in a.rows && (a.rows[id].scope !in pushed || Undelivered(a.rows[id])))
        ensures !Names(es, id) && id in b.rows ==> b.rows[id] == a.rows[id]
      {
        PushedAt(a, scopes, es, claim, id);
      }
      assert Moves(a, b) by {
        forall sc | sc in a.seqs && sc !in pushed ensures SameFace(a, b, sc) {
          forall r: Row | r.scope == sc ensures Holds(a, r) <==> Holds(b, r) { }
        }
      }
    }
  }

  /** The row of one id after an accepted push. */
  lemma PushedAt(a: Acct, scopes: seq<Scope>, es: seq<Entry>, claim: Claim, id: Id)
    requires forall e :: e in es ==> e.scope in scopes
    ensures var b := Replaced(a, scopes, es, claim); var pushed := ScopeSet(scopes);
      && (Names(es, id) ==> id in b.rows && exists e :: e in es && e.entryId == id && b.rows[id] == PushedRow(e, b.seqs, pushed))
      && (!Names(es, id) ==> (id in b.rows <==> id in a.rows && (a.rows[id].scope !in pushed || Undelivered(a.rows[id]))))
      && (!Names(es, id) && id in b.rows ==> b.rows[id] == a.rows[id])
  {
    var pushed := ScopeSet(scopes);
    var seqs := Bump(a.seqs, pushed);
    UpsertedAt(a.rows, es, seqs, pushed, id);
    if Names(es, id) {
      var i :| 0 <= i < |es| && LastNamed(es, i, id) && Upserted(a.rows, es, seqs, pushed)[id] == PushedRow(es[i], seqs, pushed);
      assert es[i] in es && (es[i].scope, id) in KeepSet(es);
    } else if id in a.rows {
      forall e | e in es ensures e.entryId != id { }
      assert (a.rows[id].scope, id) !in KeepSet(es);
    }
  }

  lemma ReshareKeeps(k: Kinds, a: Acct, scopes: seq<Scope>, es: seq<Entry>, sharedAt: map<Scope, Instant>, claim: Claim, used: set<Id>)
    requires AcctInv(k, a) && LegalEntries(k, scopes, es) && a.rows.Keys <= used
    ensures var b := Reshare(a, scopes, es, sharedAt, claim).0;
      AcctInv(k, b) && Moves(a, b) && NoNewPending(a, b) && b.rows.Keys <= used + EntryIds(es) &&
      forall sc :: Tombstoned(b.tombs, sc) ==> Tombstoned(a.tombs, sc)
  {
    var (b, res) := Reshare(a, scopes, es, sharedAt, claim);
    if res.Accepted? {
      var c := Push(a, scopes, es, claim).0;
      PushKeeps(k, a, scopes, es, claim, used);
      assert OnePerBase(b) by { forall r | Holds(b, r) ensures Holds(c, r) { } }
      forall sc | sc in a.seqs && a.seqs[sc] == b.seqs[sc] ensures SameFace(a, b, sc) {
        assert sc !in ScopeSet(scopes);
        forall t | t in a.tombs && t.scope == sc ensures t in b.tombs { assert KeptTombstone(t, ScopeSet(scopes), sharedAt); }
        assert SameFace(a, c, sc);
        forall r: Row | r.scope == sc ensures Holds(a, r) <==> Holds(b, r) { assert Holds(b, r) <==> Holds(c, r); }
      }
    }
  }

  /** Deleting some rows and moving their scopes' counters. */
  lemma DeletionKeeps(k: Kinds, a: Acct, gone: set<Id>, b: Acct)
    requires AcctInv(k, a) && b.rows == a.rows - gone && b.tombs == a.tombs && b.forgets <= a.forgets
    requires forall sc :: Counter(a.seqs, sc) <= Counter(b.seqs, sc)
    requires forall sc :: sc in a.seqs ==> sc in b.seqs
    requires forall id :: id in gone && id in a.rows && a.rows[id].scope in a.seqs ==> a.seqs[a.rows[id].scope] < b.seqs[a.rows[id].scope]
    ensures AcctInv(k, b) && Moves(a, b)
  {
    assert OnePerBase(b) by { forall r | Holds(b, r) ensures Holds(a, r) { } }
    forall sc | sc in a.seqs ensures sc in b.seqs && a.seqs[sc] <= b.seqs[sc] {
      assert Counter(a.seqs, sc) <= Counter(b.seqs, sc);
    }
    forall sc | sc in a.seqs && a.seqs[sc] == b.seqs[sc] ensures SameFace(a, b, sc) {
      forall r: Row | r.scope == sc ensures Holds(a, r) <==> Holds(b, r) { }
    }
    forall id | id in b.rows ensures b.rows[id].writeSeq <= Counter(b.seqs, b.rows[id].scope) {
      assert Counter(a.seqs, b.rows[id].scope) <= Counter(b.seqs, b.rows[id].scope);
    }
  }

  lemma DiscardKeeps(k: Kinds, a: Acct, ids: seq<Id>)
    requires AcctInv(k, a)
    ensures var b := Discard(a, ids).0; AcctInv(k, b) && Moves(a, b)
  {
    DeletionKeeps(k, a, Doomed(a, ids), Discard(a, ids).0);
  }

  lemma ForgetKeeps(k: Kinds, a: Acct, id: Id)
    requires AcctInv(k, a)
    ensures var b := Forget(a, id); AcctInv(k, b) && Moves(a, b)
  {
    DeletionKeeps(k, a, {id}, Forget(a, id));
  }

  lemma UnshareKeeps(k: Kinds, a: Acct, sc: Scope, bytes: nat, paid: bool, now: int)
    requires AcctInv(k, a)
    ensures var b := Unshare(a, sc, bytes, paid, now);
      AcctInv(k, b) && Moves(a, b) && (forall id :: id in b.rows ==> b.rows[id].scope != sc) &&
      forall x :: x != sc ==> (Tombstoned(b.tombs, x) <==> Tombstoned(a.tombs, x))
  {
    var b := Unshare(a, sc, bytes, paid, now);
    var c := b.(tombs := a.tombs);
    DeletionKeeps(k, a, InScope(a, sc), c);
    SameRowsKeep(k, c, b);
    forall x | x != sc ensures Tombstoned(b.tombs, x) <==> Tombstoned(a.tombs, x) {
      UnshareTombsElsewhere(a.tombs, sc, now, MayWriteTomb(a, sc, bytes, paid), x);
    }
    forall x | x in a.seqs && a.seqs[x] == b.seqs[x] ensures SameFace(a, b, x) {
      assert SameFace(a, c, x);
    }
  }

  /** Only the tombstones or the forget queue differ. */
  lemma SameRowsKeep(k: Kinds, a: Acct, b: Acct)
    requires AcctInv(k, a) && b.rows == a.rows && (forall sc :: Counter(a.seqs, sc) <= Counter(b.seqs, sc)) && NoDocs(k, b.forgets)
    ensures AcctInv(k, b) && forall r :: Holds(a, r) <==> Holds(b, r)
  {
    forall id | id in b.rows ensures b.rows[id].writeSeq <= Counter(b.seqs, b.rows[id].scope) {
      assert Counter(a.seqs, b.rows[id].scope) <= Counter(b.seqs, b.rows[id].scope);
    }
    assert OnePerBase(b) by { forall r | Holds(b, r) ensures Holds(a, r) { } }
  }

  lemma UnshareTombsElsewhere(tombs: seq<Tombstone>, sc: Scope, now: int, mayWriteNew: bool, x: Scope)
    requires x != sc
    ensures Tombstoned(UnshareTombs(tombs, sc, now, mayWriteNew), x) <==> Tombstoned(tombs, x)
  {
    var after := UnshareTombs(tombs, sc, now, mayWriteNew);
    if t :| t in tombs && t.scope == x {
      var i :| 0 <= i < |tombs| && tombs[i] == t;
      assert after[i] == t;
    }
    if t :| t in after && t.scope == x {
      var i :| 0 <= i < |after| && after[i] == t;
      assert i < |tombs| && tombs[i] == t;
    }
  }

  lemma AckKeeps(k: Kinds, a: Acct, s: Id, l: Id, used: set<Id>)
    requires AcctInv(k, a) && k(s) == k(l)
    ensures var b := Ack(a, s, l); AcctInv(k, b) && Moves(a, b) && PendingAreOldOrFresh(a, b, used)
  {
    var b := Ack(a, s, l);
    if s in a.rows {
      var sc := a.rows[s].scope;
      assert k(l).scope == sc;
      assert OnePerBase(b) by {
        forall r | Holds(b, r) && r.pending ensures Holds(a, r) { assert r.entryId != l; }
      }
      forall x | x in a.seqs && a.seqs[x] == b.seqs[x] ensures SameFace(a, b, x) {
        forall r: Row | r.scope == x ensures Holds(a, r) <==> Holds(b, r) {
          if Holds(a, r) { assert k(r.entryId).scope == x; }
        }
      }
    } else {
      assert OnePerBase(b) by { forall r | Holds(b, r) ensures Holds(a, r) { } }
    }
  }

  lemma EnqueueKeeps(k: Kinds, a: Acct, id: Id)
    requires AcctInv(k, a) && !k(id).doc
    ensures var b := Enqueue(a, id); AcctInv(k, b) && Moves(a, b)
  {
    SameRowsKeep(k, a, Enqueue(a, id));
  }

  lemma ReadSeqKeeps(k: Kinds, a: Acct, sc: Scope)
    requires AcctInv(k, a)
    ensures var (b, n) := ReadSeq(a, sc);
      AcctInv(k, b) && Moves(a, b) && CounterAt(b, sc, n) && b.rows == a.rows && b.tombs == a.tombs && b.forgets == a.forgets
  {
    SameRowsKeep(k, a, ReadSeq(a, sc).0);
  }

  // ---- the writes ----------------------------------------------------------

  /** The row of one id after an insert without a replacement. */
  lemma WrittenAt(a: Acct, sc: Scope, expected: Option<nat>, ins: seq<Insert>, replaced: Option<Id>, id: Id)
    requires Write(a, sc, expected, ins, replaced).1.Some?
    requires forall r :: r in ins ==> r.entryId !in a.rows && replaced != Some(r.entryId)
    requires ins != []
    ensures var b := Write(a, sc, expected, ins, replaced).0;
      && (id in b.rows <==> (exists r :: r in ins && r.entryId == id) || (id in a.rows && !(replaced == Some(id) && a.rows[id].pending)))
      && ((exists r :: r in ins && r.entryId == id) ==>
            exists r :: r in ins && r.entryId == id && b.rows[id] == InsertedRow(r, sc, b.seqs[sc]))
      && (id in b.rows && id in a.rows ==> b.rows[id] == a.rows[id])
  {
    InsertedAt(a.rows, ins, sc, Counter(a.seqs, sc) + 1, id);
    if replaced.Some? { InsertedAt(a.rows, ins, sc, Counter(a.seqs, sc) + 1, replaced.value); }
  }

  /** A landed write of fresh rows, the first of which may be a document with a base nothing else pending has. */
  lemma WriteKeeps(k: Kinds, a: Acct, sc: Scope, expected: Option<nat>, ins: seq<Insert>, replaced: Option<Id>, used: set<Id>)
    requires AcctInv(k, a) && a.rows.Keys <= used && ins != [] && Write(a, sc, expected, ins, replaced).1.Some?
    requires forall r :: r in ins ==> r.entryId !in used && replaced != Some(r.entryId) && k(r.entryId) == Kind(sc, r.mtype.Working? && IsProjectScope(sc))
    requires forall i :: 0 < i < |ins| ==> !k(ins[i].entryId).doc
    requires replaced.Some? && replaced.value in a.rows && a.rows[replaced.value].pending ==> a.rows[replaced.value].scope == sc
    requires k(ins[0].entryId).doc ==>
      ins[0].base.Some? &&
      forall r :: Holds(a, r) && IsDoc(r) && r.pending && r.scope == sc && r.base == ins[0].base ==> replaced == Some(r.entryId)
    ensures var b := Write(a, sc, expected, ins, replaced).0;
      AcctInv(k, b) && Moves(a, b) && PendingAreOldOrFresh(a, b, used) && b.rows.Keys <= used + (set r | r in ins :: r.entryId) && b.tombs == a.tombs
  {
    var b := Write(a, sc, expected, ins, replaced).0;
    forall id | id in b.rows
      ensures b.rows[id].entryId == id && k(id) == Kind(b.rows[id].scope, IsDoc(b.rows[id]))
      ensures b.rows[id].writeSeq <= Counter(b.seqs, b.rows[id].scope)
      ensures (id in a.rows && a.rows[id] == b.rows[id]) || (id !in used && id in (set r | r in ins :: r.entryId) && b.rows[id].scope == sc)
    {
      WrittenAt(a, sc, expected, ins, replaced, id);
    }
    forall x | x in a.seqs && a.seqs[x] == b.seqs[x] ensures SameFace(a, b, x) {
      assert x != sc;
      forall r: Row | r.scope == x ensures Holds(a, r) <==> Holds(b, r) { WrittenAt(a, sc, expected, ins, replaced, r.entryId); }
    }
    OnePerBaseAfterWrite(k, a, sc, expected, ins, replaced);
  }

  lemma OnePerBaseAfterWrite(k: Kinds, a: Acct, sc: Scope, expected: Option<nat>, ins: seq<Insert>, replaced: Option<Id>)
    requires AcctInv(k, a) && ins != [] && Write(a, sc, expected, ins, replaced).1.Some?
    requires forall r :: r in ins ==> r.entryId !in a.rows && replaced != Some(r.entryId) && k(r.entryId) == Kind(sc, r.mtype.Working? && IsProjectScope(sc))
    requires forall i :: 0 < i < |ins| ==> !k(ins[i].entryId).doc
    requires k(ins[0].entryId).doc ==>
      ins[0].base.Some? &&
      forall r :: Holds(a, r) && IsDoc(r) && r.pending && r.scope == sc && r.base == ins[0].base ==> replaced == Some(r.entryId)
    ensures OnePerBase(Write(a, sc, expected, ins, replaced).0)
  {
    var b := Write(a, sc, expected, ins, replaced).0;
    // A pending document after the write is an old one that stayed, or the first insert.
    forall r | Holds(b, r) && IsDoc(r) && r.pending
      ensures (Holds(a, r) && !(replaced == Some(r.entryId))) || (r == InsertedRow(ins[0], sc, b.seqs[sc]) && k(ins[0].entryId).doc)
    {
      WrittenAt(a, sc, expected, ins, replaced, r.entryId);
      if r.entryId !in a.rows {
        var x :| x in ins && x.entryId == r.entryId && r == InsertedRow(x, sc, b.seqs[sc]);
        var i :| 0 <= i < |ins| && ins[i] == x;
        assert i == 0;
      }
    }
  }
}
