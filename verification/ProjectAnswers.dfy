/**
 * What a `project_create` or `project_update` answers, over whole runs: an
 * update lands on the revision its caller named or not at all, and neither
 * lands where its checks refused it.
 */
module ProjectAnswers {
  import opened Options
  import opened ProjectHead
  import opened RowStore
  import opened ProjectProtocol
  import opened ProjectRuns

  // ---- from the start of a call to its landing -----------------------------

  /** Step j starts call c. */
  predicate StartsAt(sts: seq<Step>, j: nat, c: nat, call: Call)
    requires j < |sts|
  {
    sts[j] == Begin(c, call)
  }

  /** An update that was asked for this revision of the scope works on that revision, or is over. */
  predicate Names(call: Call, sc: Scope, rev: Id) {
    match call
    case UpdateAsked(s, r) => s == sc && r == rev
    case UpdateAllowed(s, r) => s == sc && r == rev
    case UpdateCounted(s, r, _) => s == sc && r == rev
    case UpdateHidden(s, r, _, _) => s == sc && r == rev
    case UpdateUnshared(s, r, _, _, _) => s == sc && r == rev
    case UpdateDecided(s, _, _, head, _, _) => s == sc && head.entryId == rev
    case UpdateRoom(s, _, _, head, _, _) => s == sc && head.entryId == rev
    case Landed(s, _) => s == sc
    case Ended => true
    case _ => false
  }

  lemma NamesOwnStep(w: World, c: nat, p: Pick, sc: Scope, rev: Id)
    requires c in w.calls && Names(w.calls[c], sc, rev)
    ensures c in Advance(w, c, p).calls && Names(Advance(w, c, p).calls[c], sc, rev)
  {
  }

  lemma OtherStep(k: Kinds, w: World, st: Step, c: nat)
    requires Legal(k, w, st) && c in w.calls && !(st.Go? && st.c == c)
    ensures c in Effect(w, st).calls && Effect(w, st).calls[c] == w.calls[c]
  {
  }

  lemma {:induction false} NamesUntil(k: Kinds, ws: seq<World>, sts: seq<Step>, j: nat, i: nat, c: nat, sc: Scope, rev: Id)
    requires Run(k, ws, sts) && j < i < |ws| && StartsAt(sts, j, c, UpdateAsked(sc, rev))
    ensures c in ws[i].calls && Names(ws[i].calls[c], sc, rev)
  {
    assert StepAt(k, ws, sts, i - 1);
    if i > j + 1 {
      NamesUntil(k, ws, sts, j, i - 1, c, sc, rev);
      if sts[i - 1].Go? && sts[i - 1].c == c {
        NamesOwnStep(ws[i - 1], c, sts[i - 1].pick, sc, rev);
      } else {
        OtherStep(k, ws[i - 1], sts[i - 1], c);
      }
    }
  }

  /**
   * An update begun for a revision lands only while that revision is the head
   * of its scope: whoever saw an older one never writes over a newer one.
   */
  lemma UpdateLandsOnItsRevision(k: Kinds, ws: seq<World>, sts: seq<Step>, j: nat, i: nat, c: nat, sc: Scope, rev: Id) returns (h: Row)
    requires Run(k, ws, sts) && j < i < |sts| && StartsAt(sts, j, c, UpdateAsked(sc, rev)) && LandsAt(ws, sts, i, c)
    ensures h.entryId == rev && IsHead(ScopeRows(ws[i].acct, sc), HeadRow(h))
    ensures ws[i].calls[c].UpdateRoom? && ws[i].calls[c].scope == sc
  {
    NamesUntil(k, ws, sts, j, i, c, sc, rev);
    LandedUpdateSawTheRows(k, ws, sts, i, c);
    h := ws[i].calls[c].head;
  }

  // ---- a call that is over writes nothing ----------------------------------

  lemma {:induction false} EndedStays(k: Kinds, ws: seq<World>, sts: seq<Step>, m: nat, i: nat, c: nat)
    requires Run(k, ws, sts) && m <= i < |ws| && c in ws[m].calls && ws[m].calls[c].Ended?
    ensures c in ws[i].calls && ws[i].calls[c].Ended?
    decreases i
  {
    if m < i {
      EndedStays(k, ws, sts, m, i - 1, c);
      assert StepAt(k, ws, sts, i - 1);
      OtherStep(k, ws[i - 1], sts[i - 1], c);
    }
  }

  /** The rows an update sees at step m when it looks for its head. */
  function SeenBy(w: World, call: Call): set<Row>
    requires call.UpdateUnshared?
  {
    Visible(ScopeRows(w.acct, call.scope), call.hidden, call.unshared)
  }

  /** No row of the named revision is the head the caller can see. */
  ghost predicate Stale(w: World, call: Call)
    requires call.UpdateUnshared?
  {
    forall r: Row :: IsHead(SeenBy(w, call), HeadRow(r)) ==> r.entryId != call.rev
  }

  lemma StaleEnds(k: Kinds, w: World, c: nat, p: Pick)
    requires c in w.calls && w.calls[c].UpdateUnshared? && LegalPick(k, w, w.calls[c], p) && Stale(w, w.calls[c])
    ensures Advance(w, c, p) == With(w, c, Ended)
  {
    if p.view.head.HeadRow? { assert IsHead(SeenBy(w, w.calls[c]), HeadRow(p.view.head.row)); }
  }

  /** An update that finds another head than the one it names, or none, changes nothing there and never lands. */
  lemma StaleUpdateNeverLands(k: Kinds, ws: seq<World>, sts: seq<Step>, m: nat, i: nat, c: nat)
    requires Run(k, ws, sts) && m < i < |sts| && sts[m].Go? && sts[m].c == c && c in ws[m].calls
    requires ws[m].calls[c].UpdateUnshared? && Stale(ws[m], ws[m].calls[c])
    ensures ws[m + 1].acct == ws[m].acct && !LandsAt(ws, sts, i, c)
  {
    assert StepAt(k, ws, sts, m);
    StaleEnds(k, ws[m], c, sts[m].pick);
    EndedStays(k, ws, sts, m + 1, i, c);
  }

  /** Neither tool writes to a scope whose tombstone stood when the call first looked. */
  lemma RevokedAtStartNeverLands(k: Kinds, ws: seq<World>, sts: seq<Step>, m: nat, i: nat, c: nat)
    requires Run(k, ws, sts) && m < i < |sts| && sts[m].Go? && sts[m].c == c && c in ws[m].calls
    requires (ws[m].calls[c].CreateAsked? || ws[m].calls[c].UpdateAsked?) && Tombstoned(ws[m].acct.tombs, ws[m].calls[c].scope)
    ensures ws[m + 1].acct == ws[m].acct && !LandsAt(ws, sts, i, c)
  {
    assert StepAt(k, ws, sts, m);
    EndedStays(k, ws, sts, m + 1, i, c);
  }

  /** A create that finds a working memory in its scope changes nothing and never lands. */
  lemma OccupiedNeverCreated(k: Kinds, ws: seq<World>, sts: seq<Step>, m: nat, i: nat, c: nat, r: Row)
    requires Run(k, ws, sts) && m < i < |sts| && sts[m].Go? && sts[m].c == c && c in ws[m].calls && ws[m].calls[c].CreateCounted?
    requires r in ScopeRows(ws[m].acct, ws[m].calls[c].scope) && r.mtype.Working?
    ensures ws[m + 1].acct == ws[m].acct && !LandsAt(ws, sts, i, c)
  {
    assert StepAt(k, ws, sts, m);
    EndedStays(k, ws, sts, m + 1, i, c);
  }

  // ---- the compare-and-swap and the cap ------------------------------------

  /** The last step of a call lands exactly while the scope's counter is the one it read; else nothing is written. */
  lemma LandsIff(k: Kinds, ws: seq<World>, sts: seq<Step>, i: nat, c: nat)
    requires Run(k, ws, sts) && i < |sts| && sts[i].Go? && sts[i].c == c && c in ws[i].calls
    requires ws[i].calls[c].CreateDecided? || ws[i].calls[c].UpdateRoom?
    ensures LandsAt(ws, sts, i, c) <==> CounterAt(ws[i].acct, ws[i].calls[c].scope, ws[i].calls[c].seqNo)
    ensures !LandsAt(ws, sts, i, c) ==> ws[i + 1] == With(ws[i], c, Ended)
  {
    RunKeeps(k, ws, sts, i);
    assert StepAt(k, ws, sts, i);
    assert CallInv(k, ws[i], ws[i].calls[c]);
  }

  /** How many rows a landing adds, counting the pending head it takes away. */
  function Adds(call: Call): nat
    requires call.CreateDecided? || call.UpdateRoom?
  {
    if call.CreateDecided? then 1 else (if call.head.pending then 0 else 1) + if call.archive.Some? then 1 else 0
  }

  /** At step j, call c found room for n more rows. */
  predicate RoomAt(ws: seq<World>, sts: seq<Step>, j: nat, c: nat, n: nat)
    requires |ws| == |sts| + 1 && j < |sts|
  {
    sts[j].Go? && sts[j].c == c && (n == 0 || |ws[j].acct.rows| + n <= MAX_SHARED_ENTRIES)
  }

  /** A call ready to write found room for what it adds, at a step of its own. */
  lemma {:induction false} CapWasChecked(k: Kinds, ws: seq<World>, sts: seq<Step>, i: nat, c: nat)
    requires Run(k, ws, sts) && i < |ws| && c in ws[i].calls && (ws[i].calls[c].CreateDecided? || ws[i].calls[c].UpdateRoom?)
    ensures exists j :: 0 <= j < i && RoomAt(ws, sts, j, c, Adds(ws[i].calls[c]))
  {
    if i > 0 {
      assert StepAt(k, ws, sts, i - 1);
      if sts[i - 1].Go? && sts[i - 1].c == c {
        assert RoomAt(ws, sts, i - 1, c, Adds(ws[i].calls[c]));
      } else if sts[i - 1].Begin? && sts[i - 1].c == c {
        assert false;
      } else {
        OtherCallWas(k, ws[i - 1], sts[i - 1], c);
        CapWasChecked(k, ws, sts, i - 1, c);
      }
    }
  }

  lemma OtherCallWas(k: Kinds, w: World, st: Step, c: nat)
    requires Legal(k, w, st) && c in Effect(w, st).calls && !((st.Go? || st.Begin?) && st.c == c)
    ensures c in w.calls && Effect(w, st).calls[c] == w.calls[c]
  {
  }

  // ---- the rows a landing and an ack leave ---------------------------------

  /** A landed document stands as a pending working memory with its call's text, written after every row of its scope. */
  lemma LandedRow(k: Kinds, ws: seq<World>, sts: seq<Step>, i: nat, c: nat) returns (r: Row)
    requires Run(k, ws, sts) && i < |sts| && LandsAt(ws, sts, i, c)
    ensures var call, before, after := ws[i].calls[c], ws[i].acct, ws[i + 1].acct;
      && Holds(after, r) && ws[i + 1].calls[c] == Landed(call.scope, r.entryId)
      && r.scope == call.scope && r.mtype.Working? && r.pending && r.content == call.text
      && r.writeSeq == Counter(before.seqs, call.scope) + 1 == Counter(after.seqs, call.scope)
      && forall q :: Holds(before, q) && q.scope == call.scope ==> q.writeSeq < r.writeSeq
  {
    var w, call, p := ws[i], ws[i].calls[c], sts[i].pick;
    RunKeeps(k, ws, sts, i);
    assert StepAt(k, ws, sts, i);
    assert CallInv(k, w, call) && LegalPick(k, w, call, p);
    LandsIff(k, ws, sts, i, c);
    LandingFits(k, w, call, p);
    r := InsertedRow(InsertsOf(call, p)[0], call.scope, ws[i + 1].acct.seqs[call.scope]);
  }

  /**
   * An acked project document is the head of its scope, with its text, exactly
   * when no other pending document is based on its vault id.
   */
  lemma AckedIsHeadIff(k: Kinds, a: Acct, s: Id, l: Id)
    requires AcctInv(k, a) && k(s) == k(l) && s in a.rows && IsDoc(a.rows[s])
    ensures var b, sc := Ack(a, s, l), a.rows[s].scope;
      && l in b.rows && b.rows[l].content == a.rows[s].content && !b.rows[l].pending
      && (IsHead(ScopeRows(b, sc), HeadRow(b.rows[l])) <==>
            forall d :: Holds(a, d) && d.scope == sc && PendingDoc(d) && d.entryId != s && d.entryId != l ==> d.base != Some(l))
  {
    var b, sc := Ack(a, s, l), a.rows[s].scope;
    var rows, h := ScopeRows(b, sc), b.rows[l];
    AckedRows(k, a, s, l);
    ScopeRowsHold(b, sc);
    TopIsHeadIff(rows, h);
    if d :| Holds(a, d) && d.scope == sc && PendingDoc(d) && d.entryId != s && d.entryId != l && d.base == Some(l) { assert d in rows; }
    if d :| d in rows && PendingDoc(d) && d.base == Some(h.entryId) { assert Holds(b, d) && d.entryId != l; }
  }

  /** A pushed document written after all others is the head exactly when no pending one is based on it. */
  lemma TopIsHeadIff(rows: set<Row>, h: Row)
    requires h in rows && PushedDoc(h) && forall q :: q in rows && q != h ==> q.writeSeq < h.writeSeq
    ensures IsHead(rows, HeadRow(h)) <==> forall d :: d in rows && PendingDoc(d) ==> d.base != Some(h.entryId)
  {
    OnlyTop(rows, h);
    assert TopPushed(rows, h);
    forall d | d in rows && PendingDoc(d) && d.base == Some(h.entryId) ensures Candidate(rows, d) { }
    forall d | Candidate(rows, d) ensures d.base == Some(h.entryId) { }
  }

  lemma AckedRows(k: Kinds, a: Acct, s: Id, l: Id)
    requires AcctInv(k, a) && s in a.rows
    ensures var b, sc := Ack(a, s, l), a.rows[s].scope;
      && Keyed(b.rows) && l in b.rows && b.rows[l] == a.rows[s].(entryId := l, pending := false, writeSeq := Counter(a.seqs, sc) + 1)
      && (forall d :: Holds(b, d) && d.entryId != l <==> Holds(a, d) && d.entryId != s && d.entryId != l)
      && forall d :: Holds(a, d) && d.scope == sc ==> d.writeSeq <= Counter(a.seqs, sc)
  {
  }

  /** A pushed document written after all others of its scope is the only top. */
  lemma OnlyTop(rows: set<Row>, h: Row)
    requires h in rows && PushedDoc(h) && forall q :: q in rows && q != h ==> q.writeSeq < h.writeSeq
    ensures forall p :: TopPushed(rows, p) <==> p == h
    ensures !SeveralTops(rows)
  {
  }

  // ---- an undisturbed call lands -------------------------------------------

  /** The n steps after j are call c's own. */
  predicate OwnSteps(sts: seq<Step>, j: nat, n: nat, c: nat) {
    j + n < |sts| && forall m :: j < m <= j + n ==> sts[m].Go? && sts[m].c == c
  }

  /** The rows, tombstones and forgets of two accounts are the same. */
  predicate SameBut(a: Acct, b: Acct) { a.rows == b.rows && a.tombs == b.tombs && a.forgets == b.forgets }

  lemma UpdateReadsCounter(k: Kinds, ws: seq<World>, sts: seq<Step>, j: nat, c: nat, sc: Scope, rev: Id) returns (n: nat)
    requires Run(k, ws, sts) && OwnSteps(sts, j, 2, c) && StartsAt(sts, j, c, UpdateAsked(sc, rev)) && !Tombstoned(ws[j].acct.tombs, sc)
    ensures SameBut(ws[j].acct, ws[j + 3].acct)
    ensures c in ws[j + 3].calls && ws[j + 3].calls[c] == UpdateCounted(sc, rev, n) && CounterAt(ws[j + 3].acct, sc, n)
  {
    assert StepAt(k, ws, sts, j) && StepAt(k, ws, sts, j + 1) && StepAt(k, ws, sts, j + 2);
    assert ws[j + 1].calls[c] == UpdateAsked(sc, rev);
    assert ws[j + 2].calls[c] == UpdateAllowed(sc, rev);
    n := ReadSeq(ws[j + 2].acct, sc).1;
  }

  lemma UpdateCounts(k: Kinds, ws: seq<World>, sts: seq<Step>, j: nat, c: nat, sc: Scope, rev: Id)
    requires Run(k, ws, sts) && OwnSteps(sts, j, 4, c) && StartsAt(sts, j, c, UpdateAsked(sc, rev)) && !Tombstoned(ws[j].acct.tombs, sc)
    ensures SameBut(ws[j].acct, ws[j + 5].acct)
    ensures c in ws[j + 5].calls && ws[j + 5].calls[c].UpdateUnshared?
    ensures var u := ws[j + 5].calls[c];
      u == UpdateUnshared(sc, rev, u.seqNo, ws[j].acct.forgets, false) && CounterAt(ws[j + 5].acct, sc, u.seqNo)
  {
    var n := UpdateReadsCounter(k, ws, sts, j, c, sc, rev);
    assert StepAt(k, ws, sts, j + 3) && StepAt(k, ws, sts, j + 4);
    assert ws[j + 4].calls[c] == UpdateHidden(sc, rev, n, ws[j].acct.forgets);
  }

  lemma HeadSeen(k: Kinds, a: Acct, sc: Scope, h: Row, v: View)
    requires AcctInv(k, a) && IsProjectScope(sc) && IsHead(ScopeRows(a, sc), HeadRow(h)) && IsView(Visible(ScopeRows(a, sc), a.forgets, false), v)
    ensures v.head == HeadRow(h)
  {
    HeadIsVisible(k, a, sc, HeadRow(h));
    var seen := Visible(ScopeRows(a, sc), a.forgets, false);
    match v.head
    case HeadRow(r) => OneHeadRow(seen, r, h);
    case _ =>
  }

  lemma UpdateFinds(k: Kinds, ws: seq<World>, sts: seq<Step>, j: nat, c: nat, sc: Scope, rev: Id, h: Row)
    requires Run(k, ws, sts) && OwnSteps(sts, j, 5, c) && StartsAt(sts, j, c, UpdateAsked(sc, rev)) && !Tombstoned(ws[j].acct.tombs, sc)
    requires IsHead(ScopeRows(ws[j].acct, sc), HeadRow(h)) && h.entryId == rev && !sts[j + 5].pick.refuse
    ensures ws[j + 6].acct.rows == ws[j].acct.rows && c in ws[j + 6].calls && ws[j + 6].calls[c].UpdateDecided?
    ensures var u := ws[j + 6].calls[c]; u.scope == sc && u.head == h && CounterAt(ws[j + 6].acct, sc, u.seqNo)
  {
    UpdateCounts(k, ws, sts, j, c, sc, rev);
    RunKeeps(k, ws, sts, j + 5);
    assert StepAt(k, ws, sts, j + 5);
    assert CallInv(k, ws[j + 5], ws[j + 5].calls[c]);
    HeadSeen(k, ws[j + 5].acct, sc, h, sts[j + 5].pick.view);
  }

  /** An update of the standing head that nobody disturbs or refuses lands, when the scope is not revoked and the account has room. */
  lemma UndisturbedUpdateLands(k: Kinds, ws: seq<World>, sts: seq<Step>, j: nat, c: nat, sc: Scope, rev: Id, h: Row)
    requires Run(k, ws, sts) && OwnSteps(sts, j, 7, c) && StartsAt(sts, j, c, UpdateAsked(sc, rev))
    requires !Tombstoned(ws[j].acct.tombs, sc) && IsHead(ScopeRows(ws[j].acct, sc), HeadRow(h)) && h.entryId == rev
    requires |ws[j].acct.rows| + 2 <= MAX_SHARED_ENTRIES && !sts[j + 5].pick.refuse
    ensures LandsAt(ws, sts, j + 7, c)
  {
    UpdateFinds(k, ws, sts, j, c, sc, rev, h);
    assert StepAt(k, ws, sts, j + 6);
    var u := ws[j + 6].calls[c];
    assert ws[j + 7].calls[c] == UpdateRoom(sc, u.seqNo, u.read, u.head, u.text, u.archive);
    LandsIff(k, ws, sts, j + 7, c);
  }

  /** A create in a scope without a working memory that nobody disturbs or refuses lands, when the scope is not revoked and the account has room. */
  lemma UndisturbedCreateLands(k: Kinds, ws: seq<World>, sts: seq<Step>, j: nat, c: nat, sc: Scope)
    requires Run(k, ws, sts) && OwnSteps(sts, j, 4, c) && StartsAt(sts, j, c, CreateAsked(sc))
    requires !Tombstoned(ws[j].acct.tombs, sc) && forall r :: r in ScopeRows(ws[j].acct, sc) ==> !r.mtype.Working?
    requires |ws[j].acct.rows| + 1 <= MAX_SHARED_ENTRIES && !sts[j + 3].pick.refuse
    ensures LandsAt(ws, sts, j + 4, c)
  {
    assert StepAt(k, ws, sts, j) && StepAt(k, ws, sts, j + 1) && StepAt(k, ws, sts, j + 2) && StepAt(k, ws, sts, j + 3);
    assert ws[j + 1].calls[c] == CreateAsked(sc);
    assert ws[j + 2].calls[c] == CreateAllowed(sc);
    assert ws[j + 3].acct.rows == ws[j].acct.rows;
    assert ws[j + 3].calls[c].CreateCounted?;
    assert ScopeRows(ws[j + 3].acct, sc) == ScopeRows(ws[j].acct, sc);
    LandsIff(k, ws, sts, j + 4, c);
  }

  // ---- the other tools -----------------------------------------------------

  /** `memory_forget` takes a stored id that is no project document on to the queue, and no other. */
  lemma ForgetGoesOnIff(k: Kinds, ws: seq<World>, sts: seq<Step>, i: nat, c: nat)
    requires Run(k, ws, sts) && i < |sts| && sts[i].Go? && sts[i].c == c && c in ws[i].calls && ws[i].calls[c].ForgetAsked?
    ensures c in ws[i + 1].calls && ws[i + 1].acct == ws[i].acct
    ensures var id := ws[i].calls[c].id;
      ws[i + 1].calls[c] == ForgetSeen(id) <==> exists r :: Holds(ws[i].acct, r) && r.entryId == id && !IsDoc(r)
  {
    assert StepAt(k, ws, sts, i);
    RunKeeps(k, ws, sts, i);
    var id := ws[i].calls[c].id;
    if id in ws[i].acct.rows { assert Holds(ws[i].acct, ws[i].acct.rows[id]); }
  }

  /** `memory_remember` stores its row, waiting, at a new counter of its scope, and leaves every other row. */
  lemma Remembered(k: Kinds, ws: seq<World>, sts: seq<Step>, i: nat)
    requires Run(k, ws, sts) && i < |sts| && sts[i].RememberStep?
    ensures var a, b, ins, sc := ws[i].acct, ws[i + 1].acct, sts[i].ins, sts[i].sc;
      && Counter(b.seqs, sc) == Counter(a.seqs, sc) + 1
      && Holds(b, Row(ins.entryId, sc, ins.mtype, ins.content, Connector, true, ins.base, Counter(b.seqs, sc)))
      && forall r: Row :: r.entryId != ins.entryId ==> (Holds(b, r) <==> Holds(a, r))
  {
    assert StepAt(k, ws, sts, i);
    RunKeeps(k, ws, sts, i);
    var a, ins := ws[i].acct, sts[i].ins;
    FirstInsertStands(a, sts[i].sc, None, [ins], None);
    forall r: Row | r.entryId != ins.entryId ensures Holds(ws[i + 1].acct, r) <==> Holds(a, r) {
      WrittenAt(a, sts[i].sc, None, [ins], None, r.entryId);
    }
  }
}
