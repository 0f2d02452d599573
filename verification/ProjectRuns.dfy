/**
 * Every interleaved run of the project protocol: what each step keeps, and the
 * promises a landed write and a drain make over whole runs.
 */
module ProjectRuns {
  import opened Options
  import opened ProjectHead
  import opened RowStore
  import opened ProjectProtocol

  /** What any step does to the parts of the world a waiting call relies on. */
  ghost predicate Grows(w: World, v: World) {
    && Moves(w.acct, v.acct)
    && w.used <= v.used && w.bornRevoked <= v.bornRevoked
    && PendingAreOldOrFresh(w.acct, v.acct, w.used)
  }

  // ---- heads ---------------------------------------------------------------

  /** The head depends on the working rows only. */
  lemma HeadDependsOnDocs(rows: set<Row>, others: set<Row>, h: Head)
    requires forall r: Row :: r.mtype.Working? ==> (r in rows <==> r in others)
    requires IsHead(rows, h)
    ensures IsHead(others, h)
  {
    forall p ensures TopPushed(rows, p) <==> TopPushed(others, p) { }
    forall c ensures Candidate(rows, c) <==> Candidate(others, c) { }
    if SeveralTops(rows) {
      var p, q :| TopPushed(rows, p) && TopPushed(rows, q) && p != q;
      assert TopPushed(others, p) && TopPushed(others, q);
    }
    if SeveralTops(others) {
      var p, q :| TopPushed(others, p) && TopPushed(others, q) && p != q;
      assert TopPushed(rows, p) && TopPushed(rows, q);
    }
  }

  /** With one pending document per base, a candidate is the head. */
  lemma OnlyCandidateIsHead(rows: set<Row>, c: Row)
    requires Candidate(rows, c) && !SeveralTops(rows)
    requires forall d :: d in rows && PendingDoc(d) && d.base == c.base ==> d == c
    ensures IsHead(rows, HeadRow(c))
  {
    forall d | Candidate(rows, d) ensures d == c {
      if p :| TopPushed(rows, p) {
        assert d.base == Some(p.entryId) && c.base == Some(p.entryId);
      }
    }
  }

  // ---- one step ------------------------------------------------------------

  /** The store half of the invariant. */
  ghost predicate StoreInv(k: Kinds, w: World) { AcctInv(k, w.acct) && Born(w) }

  ghost predicate StoreKept(k: Kinds, w: World, v: World) { StoreInv(k, v) && Grows(w, v) }

  /** Steps that insert no row under a fresh id and raise no tombstone. */
  lemma QuietStepKeeps(k: Kinds, w: World, v: World)
    requires StoreInv(k, w) && AcctInv(k, v.acct) && Moves(w.acct, v.acct)
    requires w.used <= v.used && w.bornRevoked == v.bornRevoked && v.acct.rows.Keys <= v.used
    requires forall id :: id in v.acct.rows && v.acct.rows[id].pending ==> id in w.acct.rows && w.acct.rows[id] == v.acct.rows[id]
    requires forall id :: id in v.acct.rows && Tombstoned(v.acct.tombs, v.acct.rows[id].scope) ==> Tombstoned(w.acct.tombs, v.acct.rows[id].scope)
    ensures StoreKept(k, w, v)
  {
  }

  /** A push leaves a store b like this; the lemma is about b alone, so that proofs need not look into the payload. */
  lemma PushedWorldKept(k: Kinds, w: World, b: Acct, ids: set<Id>)
    requires StoreInv(k, w) && AcctInv(k, b) && Moves(w.acct, b) && NoNewPending(w.acct, b) && b.rows.Keys <= w.used + ids
    requires forall sc :: Tombstoned(b.tombs, sc) ==> Tombstoned(w.acct.tombs, sc)
    ensures StoreKept(k, w, w.(acct := b, used := w.used + ids))
  {
    QuietStepKeeps(k, w, w.(acct := b, used := w.used + ids));
  }

  lemma RemovalStepKeeps(k: Kinds, w: World, st: Step)
    requires StoreInv(k, w) && (st.DiscardStep? || st.ForgetStep? || st.UnshareStep?)
    ensures StoreKept(k, w, Effect(w, st))
  {
    match st {
      case DiscardStep(ids) => DiscardKeeps(k, w.acct, ids);
      case ForgetStep(id) => ForgetKeeps(k, w.acct, id);
      case UnshareStep(sc, bytes, paid, now) => UnshareKeeps(k, w.acct, sc, bytes, paid, now);
    }
    QuietStepKeeps(k, w, Effect(w, st));
  }

  lemma RememberStepKeeps(k: Kinds, w: World, st: Step)
    requires StoreInv(k, w) && Legal(k, w, st) && st.RememberStep?
    ensures StoreKept(k, w, Effect(w, st))
  {
    WriteKeeps(k, w.acct, st.sc, None, [st.ins], None, w.used);
    WriteBorn(k, w, Effect(w, st), st.sc, None, [st.ins], None);
  }

  /** Rows inserted under a standing tombstone are recorded as born revoked. */
  lemma WriteBorn(k: Kinds, w: World, v: World, sc: Scope, expected: Option<nat>, ins: seq<Insert>, replaced: Option<Id>)
    requires StoreInv(k, w) && ins != [] && Write(w.acct, sc, expected, ins, replaced).1.Some?
    requires forall r :: r in ins ==> r.entryId !in w.used && replaced != Some(r.entryId)
    requires v.acct == Write(w.acct, sc, expected, ins, replaced).0 && v.used == w.used + (set r | r in ins :: r.entryId)
    requires v.bornRevoked == if Tombstoned(w.acct.tombs, sc) then w.bornRevoked + (set r | r in ins :: r.entryId) else w.bornRevoked
    ensures Born(v)
  {
    forall id | id in v.acct.rows
      ensures id in v.used && (v.acct.rows[id].pending && Tombstoned(v.acct.tombs, v.acct.rows[id].scope) ==> id in v.bornRevoked)
    {
      WrittenAt(w.acct, sc, expected, ins, replaced, id);
    }
  }

  lemma StoreStepKeeps(k: Kinds, w: World, st: Step)
    requires StoreInv(k, w) && Legal(k, w, st) && !st.Go?
    ensures StoreKept(k, w, Effect(w, st))
  {
    match st
    case PushStep(scopes, es, claim) =>
      PushKeeps(k, w.acct, scopes, es, claim, w.used);
      PushedWorldKept(k, w, Push(w.acct, scopes, es, claim).0, EntryIds(es));
    case ReshareStep(scopes, es, sharedAt, claim) =>
      ReshareKeeps(k, w.acct, scopes, es, sharedAt, claim, w.used);
      PushedWorldKept(k, w, Reshare(w.acct, scopes, es, sharedAt, claim).0, EntryIds(es));
    case DiscardStep(_) => RemovalStepKeeps(k, w, st);
    case ForgetStep(_) => RemovalStepKeeps(k, w, st);
    case UnshareStep(_, _, _, _) => RemovalStepKeeps(k, w, st);
    case AckStep(s, l) => AckStepKeeps(k, w, s, l);
    case RememberStep(_, _) => RememberStepKeeps(k, w, st);
    case Begin(_, _) => StandsStill(k, w.acct);
  }

  lemma AckStepKeeps(k: Kinds, w: World, s: Id, l: Id)
    requires StoreInv(k, w) && k(s) == k(l)
    ensures StoreKept(k, w, Effect(w, AckStep(s, l)))
  {
    AckKeeps(k, w.acct, s, l, w.used);
    QuietStepKeeps(k, w, Effect(w, AckStep(s, l)));
  }

  lemma StandsStill(k: Kinds, a: Acct)
    requires AcctInv(k, a)
    ensures Moves(a, a)
  {
    SameRowsKeep(k, a, a);
  }

  /** What a call in its last state is about to write. */
  function InsertsOf(call: Call, p: Pick): (ins: seq<Insert>)
    requires call.CreateDecided? || call.UpdateRoom?
    ensures |ins| > 0 && ins[0].entryId == p.id && ins[0].content == call.text
  {
    if call.CreateDecided? then CreateInserts(call.text, p.id) else UpdateInserts(call, p)
  }

  function ReplacedOf(call: Call): Option<Id>
    requires call.CreateDecided? || call.UpdateRoom?
  {
    if call.CreateDecided? then None else ReplacedBy(call.head)
  }

  /** The store right after a landing. */
  function LandedAcct(w: World, call: Call, p: Pick): Acct
    requires call.CreateDecided? || call.UpdateRoom?
  {
    Write(w.acct, call.scope, Some(call.seqNo), InsertsOf(call, p), ReplacedOf(call)).0
  }

  /** An update writes on the base of its head, which no other pending document has. */
  lemma UpdateBaseIsFree(k: Kinds, a: Acct, sc: Scope, n: nat, read: set<Row>, head: Row)
    requires AcctInv(k, a) && UpdateKnows(a, sc, n, read, head) && CounterAt(a, sc, n)
    ensures Holds(a, head) && head.scope == sc && BaseOn(head).Some?
    ensures forall r :: Holds(a, r) && IsDoc(r) && r.pending && r.scope == sc && r.base == BaseOn(head) ==> ReplacedBy(head) == Some(r.entryId)
  {
    assert head in read && (head.pending ==> Candidate(read, head));
    if !head.pending { NothingOnPushedHead(read, head); }
    forall r | Holds(a, r) && IsDoc(r) && r.pending && r.scope == sc && r.base == BaseOn(head)
      ensures ReplacedBy(head) == Some(r.entryId)
    {
      assert r in read;
    }
  }

  /** A pushed head has no pending document on it. */
  lemma NothingOnPushedHead(read: set<Row>, head: Row)
    requires IsHead(read, HeadRow(head)) && !head.pending
    ensures forall r :: r in read && PendingDoc(r) ==> r.base != Some(head.entryId)
  {
    forall r | r in read && PendingDoc(r) ensures r.base != Some(head.entryId) { assert !Candidate(read, r); }
  }

  /** A landing write meets the conditions of `WriteKeeps`. */
  lemma LandingFits(k: Kinds, w: World, call: Call, p: Pick)
    requires StoreInv(k, w) && CallInv(k, w, call) && LegalPick(k, w, call, p) && (call.CreateDecided? || call.UpdateRoom?)
    requires CounterAt(w.acct, call.scope, call.seqNo)
    ensures var b := LandedAcct(w, call, p);
      && (forall r :: r in InsertsOf(call, p) ==> r.entryId !in w.used && ReplacedOf(call) != Some(r.entryId))
      && AcctInv(k, b) && Moves(w.acct, b) && PendingAreOldOrFresh(w.acct, b, w.used) && b.tombs == w.acct.tombs
      && b.forgets == w.acct.forgets
      && Holds(b, InsertedRow(InsertsOf(call, p)[0], call.scope, b.seqs[call.scope]))
  {
    var ins, replaced := InsertsOf(call, p), ReplacedOf(call);
    if call.UpdateRoom? {
      UpdateBaseIsFree(k, w.acct, call.scope, call.seqNo, call.read, call.head);
    }
    assert forall i :: 0 < i < |ins| ==> ins[i].entryId == p.archiveId && call.archive.Some?;
    assert forall r :: r in ins ==> r == ins[0] || (r.entryId == p.archiveId && call.archive.Some? && r.mtype == Episodic);
    WriteKeeps(k, w.acct, call.scope, Some(call.seqNo), ins, replaced, w.used);
    FirstInsertStands(w.acct, call.scope, Some(call.seqNo), ins, replaced);
  }

  /** The pushed documents of the scope are the same before and after. */
  lemma LandingLeavesPushed(k: Kinds, w: World, call: Call, p: Pick, r: Row)
    requires StoreInv(k, w) && CallInv(k, w, call) && LegalPick(k, w, call, p) && (call.CreateDecided? || call.UpdateRoom?)
    requires CounterAt(w.acct, call.scope, call.seqNo) && !r.pending
    ensures Holds(LandedAcct(w, call, p), r) <==> Holds(w.acct, r)
  {
    LandingFits(k, w, call, p);
    WrittenAt(w.acct, call.scope, Some(call.seqNo), InsertsOf(call, p), ReplacedOf(call), r.entryId);
  }

  lemma FirstInsertStands(a: Acct, sc: Scope, expected: Option<nat>, ins: seq<Insert>, replaced: Option<Id>)
    requires ins != [] && Write(a, sc, expected, ins, replaced).1.Some?
    requires forall r :: r in ins ==> r.entryId !in a.rows && replaced != Some(r.entryId)
    requires forall i :: 0 < i < |ins| ==> ins[i].entryId != ins[0].entryId
    ensures var b := Write(a, sc, expected, ins, replaced).0; Holds(b, InsertedRow(ins[0], sc, b.seqs[sc]))
  {
    WrittenAt(a, sc, expected, ins, replaced, ins[0].entryId);
    var b := Write(a, sc, expected, ins, replaced).0;
    assert ins[0] in ins;
    var r :| r in ins && r.entryId == ins[0].entryId && b.rows[r.entryId] == InsertedRow(r, sc, b.seqs[sc]);
    assert r == ins[0];
  }

  lemma WriteStepKeeps(k: Kinds, w: World, c: nat, p: Pick)
    requires StoreInv(k, w) && c in w.calls && (w.calls[c].CreateDecided? || w.calls[c].UpdateRoom?)
    requires CallInv(k, w, w.calls[c]) && LegalPick(k, w, w.calls[c], p)
    ensures StoreKept(k, w, Advance(w, c, p))
  {
    var call := w.calls[c];
    StandsStill(k, w.acct);
    if CounterAt(w.acct, call.scope, call.seqNo) {
      LandingFits(k, w, call, p);
      WriteBorn(k, w, Advance(w, c, p), call.scope, Some(call.seqNo), InsertsOf(call, p), ReplacedOf(call));
    }
  }

  /** The call states whose next step only reads. */
  predicate OnlyReads(call: Call) {
    !call.CreateAllowed? && !call.UpdateAllowed? && !call.CreateDecided? && !call.UpdateRoom? && !call.ForgetSeen? && !call.DrainPurging?
  }

  lemma ReadingStep(w: World, c: nat, p: Pick)
    requires c in w.calls && OnlyReads(w.calls[c])
    ensures Advance(w, c, p).acct == w.acct && Advance(w, c, p).used == w.used && Advance(w, c, p).bornRevoked == w.bornRevoked
  {
  }

  lemma CallStepKeepsStore(k: Kinds, w: World, c: nat, p: Pick)
    requires StoreInv(k, w) && c in w.calls && CallInv(k, w, w.calls[c]) && LegalPick(k, w, w.calls[c], p)
    ensures StoreKept(k, w, Advance(w, c, p))
  {
    var call := w.calls[c];
    if OnlyReads(call) {
      StandsStill(k, w.acct);
      ReadingStep(w, c, p);
    } else if call.CreateDecided? || call.UpdateRoom? {
      WriteStepKeeps(k, w, c, p);
    } else {
      OtherStepKeeps(k, w, c, p);
    }
  }

  lemma OtherStepKeeps(k: Kinds, w: World, c: nat, p: Pick)
    requires StoreInv(k, w) && c in w.calls && CallInv(k, w, w.calls[c])
    requires w.calls[c].CreateAllowed? || w.calls[c].UpdateAllowed? || w.calls[c].ForgetSeen? || w.calls[c].DrainPurging?
    ensures StoreKept(k, w, Advance(w, c, p))
  {
    var call := w.calls[c];
    if call.ForgetSeen? {
      EnqueueKeeps(k, w.acct, call.id);
    } else if call.DrainPurging? {
      DiscardKeeps(k, w.acct, p.ids);
    } else {
      ReadSeqKeeps(k, w.acct, call.scope);
    }
    QuietStepKeeps(k, w, Advance(w, c, p));
  }

  /** A step of anyone else leaves a waiting call's knowledge true. */
  lemma OthersKeepCall(k: Kinds, w: World, v: World, call: Call)
    requires CallInv(k, w, call) && Grows(w, v)
    ensures CallInv(k, v, call)
  {
    match call
    case CreateDecided(sc, n, _, _) => if CounterAt(v.acct, sc, n) { assert SameFace(w.acct, v.acct, sc); }
    case UpdateDecided(sc, n, _, _, _, _) => if CounterAt(v.acct, sc, n) { assert SameFace(w.acct, v.acct, sc); }
    case UpdateRoom(sc, n, _, _, _, _) => if CounterAt(v.acct, sc, n) { assert SameFace(w.acct, v.acct, sc); }
    case _ =>
  }

  /** The rows a caller sees have the head of the rows stored: no hidden id names a document. */
  lemma SeenHeadIsHead(k: Kinds, a: Acct, sc: Scope, hidden: set<Id>, unshared: bool, h: Row)
    requires AcctInv(k, a) && IsProjectScope(sc) && NoDocs(k, hidden)
    requires IsHead(Visible(ScopeRows(a, sc), hidden, unshared), HeadRow(h))
    ensures !unshared && IsHead(ScopeRows(a, sc), HeadRow(h))
  {
    var read := ScopeRows(a, sc);
    var seen := Visible(read, hidden, unshared);
    ScopeRowsHold(a, sc);
    assert h in seen;
    forall r: Row | r.mtype.Working? ensures r in seen <==> r in read {
      if r in read { assert IsDoc(r) && k(r.entryId).doc; }
    }
    HeadDependsOnDocs(seen, read, HeadRow(h));
  }

  lemma CountedCallKnows(k: Kinds, w: World, c: nat, p: Pick)
    requires StoreInv(k, w) && c in w.calls && CallInv(k, w, w.calls[c])
    requires w.calls[c].CreateAllowed? || w.calls[c].UpdateAllowed? || w.calls[c].CreateCounted?
    ensures var v := Advance(w, c, p); CallInv(k, v, v.calls[c])
  {
    var sc := w.calls[c].scope;
    if w.calls[c].CreateCounted? { ScopeRowsHold(w.acct, sc); } else { ReadSeqKeeps(k, w.acct, sc); }
  }

  lemma ViewedCallKnows(k: Kinds, w: World, c: nat, p: Pick)
    requires StoreInv(k, w) && c in w.calls && w.calls[c].UpdateUnshared?
    requires CallInv(k, w, w.calls[c]) && LegalPick(k, w, w.calls[c], p)
    ensures var v := Advance(w, c, p); CallInv(k, v, v.calls[c])
  {
    var u := w.calls[c];
    ScopeRowsHold(w.acct, u.scope);
    if p.view.head.HeadRow? { SeenHeadIsHead(k, w.acct, u.scope, u.hidden, u.unshared, p.view.head.row); }
  }

  lemma DrainCallKnows(k: Kinds, w: World, c: nat, p: Pick)
    requires StoreInv(k, w) && c in w.calls && (w.calls[c].DrainListed? || w.calls[c].DrainAsked?) && CallInv(k, w, w.calls[c])
    ensures var v := Advance(w, c, p); CallInv(k, v, v.calls[c])
  {
    var a := w.acct;
    if w.calls[c].DrainListed? {
      forall r | r in w.calls[c].listed && Tombstoned(a.tombs, r.scope)
        ensures r.entryId in w.used && (r.entryId in a.rows && a.rows[r.entryId].pending ==> r.entryId in w.bornRevoked)
      {
      }
    }
  }

  /** The call that moved knows what its next step rests on. */
  lemma OwnCallKnows(k: Kinds, w: World, c: nat, p: Pick)
    requires StoreInv(k, w) && c in w.calls && CallInv(k, w, w.calls[c]) && LegalPick(k, w, w.calls[c], p)
    ensures var v := Advance(w, c, p); CallInv(k, v, v.calls[c])
  {
    var call := w.calls[c];
    if call.CreateAllowed? || call.UpdateAllowed? || call.CreateCounted? {
      CountedCallKnows(k, w, c, p);
    } else if call.UpdateUnshared? {
      ViewedCallKnows(k, w, c, p);
    } else if call.DrainListed? || call.DrainAsked? {
      DrainCallKnows(k, w, c, p);
    } else {
      PlainCallKnows(k, w, c, p);
    }
  }

  lemma PlainCallKnows(k: Kinds, w: World, c: nat, p: Pick)
    requires StoreInv(k, w) && c in w.calls && CallInv(k, w, w.calls[c])
    requires var call := w.calls[c]; !call.CreateAllowed? && !call.UpdateAllowed? && !call.CreateCounted? && !call.UpdateUnshared? && !call.DrainListed? && !call.DrainAsked?
    ensures var v := Advance(w, c, p); CallInv(k, v, v.calls[c])
  {
  }

  /** Every step keeps the invariant. */
  lemma StepKeeps(k: Kinds, w: World, st: Step)
    requires Inv(k, w) && Legal(k, w, st)
    ensures Inv(k, Effect(w, st)) && Grows(w, Effect(w, st))
  {
    var v := Effect(w, st);
    if st.Go? { assert CallInv(k, w, w.calls[st.c]); }
    if st.Go? { CallStepKeepsStore(k, w, st.c, st.pick); } else { StoreStepKeeps(k, w, st); }
    forall c | c in v.calls ensures CallInv(k, v, v.calls[c]) {
      if st.Go? && c == st.c {
        OwnCallKnows(k, w, c, st.pick);
      } else if c in w.calls && !(st.Begin? && c == st.c) {
        assert v.calls[c] == w.calls[c];
        OthersKeepCall(k, w, v, v.calls[c]);
      }
    }
  }

  // ---- runs ----------------------------------------------------------------

  /** Any store that meets the invariant, legacy rows included, and no call under way. */
  ghost predicate Init(k: Kinds, w: World) { AcctInv(k, w.acct) && Born(w) && w.calls == map[] }

  ghost predicate Run(k: Kinds, ws: seq<World>, sts: seq<Step>) {
    && |ws| == |sts| + 1 && Init(k, ws[0])
    && forall i :: 0 <= i < |sts| ==> StepAt(k, ws, sts, i)
  }

  ghost predicate StepAt(k: Kinds, ws: seq<World>, sts: seq<Step>, i: int)
    requires |ws| == |sts| + 1 && 0 <= i < |sts|
  {
    Legal(k, ws[i], sts[i]) && ws[i + 1] == Effect(ws[i], sts[i])
  }

  lemma {:induction false} RunKeeps(k: Kinds, ws: seq<World>, sts: seq<Step>, i: nat)
    requires Run(k, ws, sts) && i < |ws|
    ensures Inv(k, ws[i])
  {
    if i > 0 {
      RunKeeps(k, ws, sts, i - 1);
      assert StepAt(k, ws, sts, i - 1);
      StepKeeps(k, ws[i - 1], sts[i - 1]);
    }
  }

  /** In every state of every run each project scope holds at most one pending document per base revision. */
  lemma OneDocumentPerBase(k: Kinds, ws: seq<World>, sts: seq<Step>, i: nat, r: Row, q: Row)
    requires Run(k, ws, sts) && i < |ws|
    requires Holds(ws[i].acct, r) && Holds(ws[i].acct, q) && r.scope == q.scope && IsProjectScope(r.scope)
    requires PendingDoc(r) && PendingDoc(q) && r.base == q.base && r.base.Some?
    ensures r == q
  {
    RunKeeps(k, ws, sts, i);
  }

  /** No row's write_seq exceeds its scope's counter, in any state of any run. */
  lemma RowsNeverOutrunCounters(k: Kinds, ws: seq<World>, sts: seq<Step>, i: nat, r: Row)
    requires Run(k, ws, sts) && i < |ws| && Holds(ws[i].acct, r)
    ensures r.writeSeq <= Counter(ws[i].acct.seqs, r.scope)
  {
    RunKeeps(k, ws, sts, i);
  }

  /**
   * Why the compare-and-swap is enough: when a scope's existing counter reads
   * the same at two points of a run, the scope held the same rows under the
   * same tombstone, or none, at every point in between.
   */
  lemma {:induction false} CounterFreezesScope(k: Kinds, ws: seq<World>, sts: seq<Step>, i: nat, m: nat, j: nat, sc: Scope)
    requires Run(k, ws, sts) && i <= m <= j < |ws|
    requires sc in ws[i].acct.seqs && sc in ws[j].acct.seqs && ws[i].acct.seqs[sc] == ws[j].acct.seqs[sc]
    ensures SameFace(ws[m].acct, ws[j].acct, sc)
    decreases j - m
  {
    CountersGrow(k, ws, sts, i, m, sc);
    if m < j {
      OneStepMoves(k, ws, sts, m);
      CountersGrow(k, ws, sts, m + 1, j, sc);
      CounterFreezesScope(k, ws, sts, i, m + 1, j, sc);
      SameFaceTransitive(ws[m].acct, ws[m + 1].acct, ws[j].acct, sc);
    }
  }

  lemma SameFaceTransitive(a: Acct, b: Acct, d: Acct, sc: Scope)
    requires SameFace(a, b, sc) && SameFace(b, d, sc)
    ensures SameFace(a, d, sc)
  {
    forall r: Row | r.scope == sc ensures Holds(a, r) <==> Holds(d, r) { assert Holds(a, r) <==> Holds(b, r); }
  }

  lemma OneStepMoves(k: Kinds, ws: seq<World>, sts: seq<Step>, m: nat)
    requires Run(k, ws, sts) && m < |sts|
    ensures Moves(ws[m].acct, ws[m + 1].acct)
  {
    RunKeeps(k, ws, sts, m);
    assert StepAt(k, ws, sts, m);
    StepKeeps(k, ws[m], sts[m]);
  }

  lemma {:induction false} CountersGrow(k: Kinds, ws: seq<World>, sts: seq<Step>, i: nat, j: nat, sc: Scope)
    requires Run(k, ws, sts) && i <= j < |ws| && sc in ws[i].acct.seqs
    ensures sc in ws[j].acct.seqs && ws[i].acct.seqs[sc] <= ws[j].acct.seqs[sc]
  {
    if i < j {
      CountersGrow(k, ws, sts, i, j - 1, sc);
      OneStepMoves(k, ws, sts, j - 1);
    }
  }

  /** Call c's step i is a write that landed. */
  predicate LandsAt(ws: seq<World>, sts: seq<Step>, i: nat, c: nat)
    requires |ws| == |sts| + 1 && i < |sts|
  {
    sts[i].Go? && sts[i].c == c && c in ws[i].calls && c in ws[i + 1].calls &&
    (ws[i].calls[c].CreateDecided? || ws[i].calls[c].UpdateRoom?) && ws[i + 1].calls[c].Landed?
  }

  /**
   * A `project_update` that lands wrote over exactly the scope's rows it had
   * read, in a scope that is not unshared at that instant.
   */
  lemma LandedUpdateSawTheRows(k: Kinds, ws: seq<World>, sts: seq<Step>, i: nat, c: nat)
    requires Run(k, ws, sts) && i < |sts| && LandsAt(ws, sts, i, c) && ws[i].calls[c].UpdateRoom?
    ensures var u := ws[i].calls[c];
      && ScopeRows(ws[i].acct, u.scope) == u.read
      && IsHead(u.read, HeadRow(u.head))
      && !Tombstoned(ws[i].acct.tombs, u.scope)
  {
    RunKeeps(k, ws, sts, i);
    assert StepAt(k, ws, sts, i);
    assert CallInv(k, ws[i], ws[i].calls[c]);
    ScopeRowsHold(ws[i].acct, ws[i].calls[c].scope);
  }

  /** A document that alone stands on its base, on the head of what was there or on nothing, is the head. */
  lemma AloneOnItsBase(rows: set<Row>, before: set<Row>, r: Row, on: Option<Row>)
    requires forall q: Row :: !q.pending ==> (q in rows <==> q in before)
    requires r in rows && PendingDoc(r) && forall d :: d in rows && PendingDoc(d) && d.base == r.base ==> d == r
    requires on.Some? ==> IsHead(before, HeadRow(on.value)) && r.base == BaseOn(on.value)
    requires on.None? ==> r.base == Some(BASE_NEW) && forall q :: !TopPushed(before, q)
    ensures IsHead(rows, HeadRow(r))
  {
    SameTops(rows, before);
    if on.Some? {
      assert on.value.pending ==> Candidate(before, on.value);
      assert !on.value.pending ==> TopPushed(before, on.value);
    }
    OnlyCandidateIsHead(rows, r);
  }

  /** What a landing call knew of the scope it writes to. */
  lemma BeforeLanding(k: Kinds, w: World, call: Call)
    requires StoreInv(k, w) && CallInv(k, w, call) && (call.CreateDecided? || call.UpdateRoom?) && CounterAt(w.acct, call.scope, call.seqNo)
    ensures call.CreateDecided? ==> forall q :: !TopPushed(ScopeRows(w.acct, call.scope), q)
    ensures call.UpdateRoom? ==> IsHead(ScopeRows(w.acct, call.scope), HeadRow(call.head))
  {
    ScopeRowsHold(w.acct, call.scope);
    if call.UpdateRoom? { assert ScopeRows(w.acct, call.scope) == call.read; }
  }

  lemma AloneInScope(b: Acct, sc: Scope, r: Row)
    requires OnePerBase(b) && Keyed(b.rows) && Holds(b, r) && r.scope == sc && IsDoc(r) && r.pending && r.base.Some?
    ensures r in ScopeRows(b, sc) && forall d :: d in ScopeRows(b, sc) && PendingDoc(d) && d.base == r.base ==> d == r
  {
    ScopeRowsHold(b, sc);
    forall d | d in ScopeRows(b, sc) && PendingDoc(d) && d.base == r.base ensures d == r { assert IsDoc(d); }
  }

  /** The landed row is the only candidate of its scope, on the top pushed document or on none. */
  lemma LandedRowIsHead(k: Kinds, w: World, call: Call, p: Pick)
    requires StoreInv(k, w) && CallInv(k, w, call) && LegalPick(k, w, call, p) && (call.CreateDecided? || call.UpdateRoom?)
    requires CounterAt(w.acct, call.scope, call.seqNo)
    ensures var b := LandedAcct(w, call, p);
      IsHead(ScopeRows(b, call.scope), HeadRow(InsertedRow(InsertsOf(call, p)[0], call.scope, Counter(b.seqs, call.scope))))
  {
    var b := LandedAcct(w, call, p);
    LandingFits(k, w, call, p);
    var r := InsertedRow(InsertsOf(call, p)[0], call.scope, b.seqs[call.scope]);
    var rows, before := ScopeRows(b, call.scope), ScopeRows(w.acct, call.scope);
    ScopeRowsHold(b, call.scope);
    ScopeRowsHold(w.acct, call.scope);
    forall q: Row | !q.pending ensures q in rows <==> q in before { LandingLeavesPushed(k, w, call, p, q); }
    AloneInScope(b, call.scope, r);
    BeforeLanding(k, w, call);
    AloneOnItsBase(rows, before, r, if call.UpdateRoom? then Some(call.head) else None);
  }

  lemma SameTops(rows: set<Row>, before: set<Row>)
    requires forall q: Row :: !q.pending ==> (q in rows <==> q in before)
    ensures forall q :: TopPushed(rows, q) <==> TopPushed(before, q)
    ensures SeveralTops(rows) <==> SeveralTops(before)
  {
    forall q ensures TopPushed(rows, q) <==> TopPushed(before, q) { }
    if q, s :| TopPushed(rows, q) && TopPushed(rows, s) && q != s { assert TopPushed(before, q) && TopPushed(before, s); }
    if q, s :| TopPushed(before, q) && TopPushed(before, s) && q != s { assert TopPushed(rows, q) && TopPushed(rows, s); }
  }

  /** Queued forgets hide no document, so the visible rows have the same head. */
  lemma HeadIsVisible(k: Kinds, a: Acct, sc: Scope, h: Head)
    requires AcctInv(k, a) && IsProjectScope(sc) && IsHead(ScopeRows(a, sc), h)
    ensures IsHead(Visible(ScopeRows(a, sc), a.forgets, false), h)
  {
    ScopeRowsHold(a, sc);
    var rows := ScopeRows(a, sc);
    var seen := Visible(rows, a.forgets, false);
    forall d: Row | d.mtype.Working? ensures d in rows <==> d in seen {
      if d in rows { assert IsDoc(d) && k(d.entryId).doc; }
    }
    HeadDependsOnDocs(rows, seen, h);
  }

  /**
   * The revision a successful create or update returns is the scope's head at
   * that instant: of the stored rows, and of what the account's queued forgets
   * leave visible.
   */
  lemma RevisionIsHead(k: Kinds, ws: seq<World>, sts: seq<Step>, i: nat, c: nat) returns (r: Row)
    requires Run(k, ws, sts) && i < |sts| && LandsAt(ws, sts, i, c)
    ensures ws[i + 1].calls[c] == Landed(ws[i].calls[c].scope, r.entryId) && r.content == ws[i].calls[c].text
    ensures var after, sc := ws[i + 1].acct, ws[i].calls[c].scope;
      IsHead(ScopeRows(after, sc), HeadRow(r)) && IsHead(Visible(ScopeRows(after, sc), after.forgets, false), HeadRow(r))
  {
    var w, call, p := ws[i], ws[i].calls[c], sts[i].pick;
    RunKeeps(k, ws, sts, i);
    assert StepAt(k, ws, sts, i);
    assert CallInv(k, w, call) && LegalPick(k, w, call, p);
    assert ws[i + 1] == WriteEffect(w, c, call.scope, call.seqNo, InsertsOf(call, p), ReplacedOf(call));
    LandedRowIsHead(k, w, call, p);
    LandingFits(k, w, call, p);
    r := InsertedRow(InsertsOf(call, p)[0], call.scope, Counter(LandedAcct(w, call, p).seqs, call.scope));
    HeadIsVisible(k, ws[i + 1].acct, call.scope, HeadRow(r));
  }

  /**
   * A created document is hidden at its landing exactly when the scope was
   * already unshared at the moment the create read the counter.
   */
  lemma CreateHiddenIff(k: Kinds, ws: seq<World>, sts: seq<Step>, j: nat, i: nat, c: nat)
    requires Run(k, ws, sts) && j < i < |sts| && LandsAt(ws, sts, i, c) && ws[i].calls[c].CreateDecided?
    requires sts[j].Go? && sts[j].c == c && c in ws[j].calls && ws[j].calls[c].CreateAllowed?
    ensures ws[j].calls[c].scope == ws[i].calls[c].scope
    ensures Tombstoned(ws[i].acct.tombs, ws[i].calls[c].scope) <==> Tombstoned(ws[j].acct.tombs, ws[i].calls[c].scope)
  {
    CreateRemembers(k, ws, sts, j, i, c);
    RunKeeps(k, ws, sts, i);
    assert StepAt(k, ws, sts, i);
    assert CallInv(k, ws[i], ws[i].calls[c]);
  }

  lemma {:induction false} CreateRemembers(k: Kinds, ws: seq<World>, sts: seq<Step>, j: nat, i: nat, c: nat)
    requires Run(k, ws, sts) && j < i < |ws|
    requires sts[j].Go? && sts[j].c == c && c in ws[j].calls && ws[j].calls[c].CreateAllowed?
    ensures c in ws[i].calls && Remembers(ws[i].calls[c], ws[j].calls[c].scope, Tombstoned(ws[j].acct.tombs, ws[j].calls[c].scope))
  {
    if i == j + 1 {
      assert StepAt(k, ws, sts, j);
    } else {
      CreateRemembers(k, ws, sts, j, i - 1, c);
      assert StepAt(k, ws, sts, i - 1);
      CreateRemembersStep(k, ws[i - 1], sts[i - 1], c, ws[j].calls[c].scope, Tombstoned(ws[j].acct.tombs, ws[j].calls[c].scope));
    }
  }

  /** A create past its counter read still carries what it saw there. */
  predicate Remembers(call: Call, sc: Scope, revoked: bool) {
    ((call.CreateCounted? || call.CreateDecided?) && call.scope == sc && call.revokedAtCount == revoked) || call.Ended? || call.Landed?
  }

  lemma CreateRemembersStep(k: Kinds, w: World, st: Step, c: nat, sc: Scope, revoked: bool)
    requires Legal(k, w, st) && c in w.calls && Remembers(w.calls[c], sc, revoked)
    ensures c in Effect(w, st).calls && Remembers(Effect(w, st).calls[c], sc, revoked)
  {
    if st.Go? && st.c == c {
    } else {
      assert Effect(w, st).calls[c] == w.calls[c];
    }
  }

  /**
   * The drain deletes only rows written while their scope's tombstone already
   * stood: a row written after a re-share is never among them.
   */
  lemma DrainDeletesOnlyRevokedWrites(k: Kinds, ws: seq<World>, sts: seq<Step>, i: nat, c: nat, id: Id)
    requires Run(k, ws, sts) && i < |sts| && sts[i].Go? && sts[i].c == c && c in ws[i].calls && ws[i].calls[c].DrainPurging?
    requires id in ws[i].acct.rows && id !in ws[i + 1].acct.rows
    ensures id in ws[i].calls[c].purged && ws[i].acct.rows[id].pending && id in ws[i].bornRevoked
  {
    RunKeeps(k, ws, sts, i);
    assert StepAt(k, ws, sts, i);
    assert CallInv(k, ws[i], ws[i].calls[c]);
  }

  // ---- the one window a create leaves open ---------------------------------

  const PROJECT: Scope := "project:a"
  const NOTHING := Acct(map[], map[], [], {}, NO_ORDER)
  const REVOKED := NOTHING.(tombs := [Tombstone(PROJECT, At(0))])
  const PICK := Pick(false, "d", "", "", None, View(NoHead, {}), [])

  const COUNTED := REVOKED.(seqs := map[PROJECT := 0])

  function Waiting(a: Acct, call: Call): World { World(a, map[0 := call], {}, {}) }

  function OneProject(): Kinds { id => Kind(PROJECT, true) }

  function WindowSteps(): seq<Step> {
    [Begin(0, CreateAsked(PROJECT)), Go(0, PICK), UnshareStep(PROJECT, 9, true, 0), Go(0, PICK), Go(0, PICK), Go(0, PICK)]
  }

  function WindowWorld(i: nat): World {
    if i == 0 then World(NOTHING, map[], {}, {})
    else if i == 1 then Waiting(NOTHING, CreateAsked(PROJECT))
    else if i == 2 then Waiting(NOTHING, CreateAllowed(PROJECT))
    else if i == 3 then Waiting(REVOKED, CreateAllowed(PROJECT))
    else if i == 4 then Waiting(COUNTED, CreateCounted(PROJECT, 0, true))
    else if i == 5 then Waiting(COUNTED, CreateDecided(PROJECT, 0, true, ""))
    else World(Write(COUNTED, PROJECT, Some(0), CreateInserts("", "d"), None).0, map[0 := Landed(PROJECT, "d")], {"d"}, {"d"})
  }

  lemma WindowOpens(i: nat)
    requires i < 3
    ensures Legal(OneProject(), WindowWorld(i), WindowSteps()[i]) && WindowWorld(i + 1) == Effect(WindowWorld(i), WindowSteps()[i])
  {
    if i == 2 { assert NOTHING.rows - InScope(NOTHING, PROJECT) == map[]; }
  }

  lemma WindowCounts(i: nat)
    requires 3 <= i < 5
    ensures Legal(OneProject(), WindowWorld(i), WindowSteps()[i]) && WindowWorld(i + 1) == Effect(WindowWorld(i), WindowSteps()[i])
  {
    assert REVOKED.tombs[0] in REVOKED.tombs;
    assert i == 4 ==> ScopeRows(COUNTED, PROJECT) == {};
  }

  lemma WindowLands()
    ensures Legal(OneProject(), WindowWorld(5), WindowSteps()[5]) && WindowWorld(6) == Effect(WindowWorld(5), WindowSteps()[5])
  {
    assert COUNTED.tombs[0] in COUNTED.tombs;
    var ins := CreateInserts("", "d");
    assert (set r | r in ins :: r.entryId) == {"d"} by { assert ins[0] in ins; }
    assert Write(COUNTED, PROJECT, Some(0), ins, None).1.Some?;
  }

  /**
   * An unshare between a create's tombstone check and its counter read is not
   * noticed: the create still lands, in a tombstoned scope.
   */
  lemma CreateCanLandRevoked() returns (k: Kinds, ws: seq<World>, sts: seq<Step>)
    ensures Run(k, ws, sts) && |sts| == 6 && LandsAt(ws, sts, 5, 0)
    ensures Tombstoned(ws[6].acct.tombs, ws[6].calls[0].scope)
  {
    k, sts := OneProject(), WindowSteps();
    ws := seq(7, i => if 0 <= i then WindowWorld(i) else WindowWorld(0));
    forall i | 0 <= i < 6 ensures StepAt(k, ws, sts, i) {
      if i < 3 { WindowOpens(i); } else if i < 5 { WindowCounts(i); } else { WindowLands(); }
    }
    assert COUNTED.tombs[0] in ws[6].acct.tombs;
  }
}
