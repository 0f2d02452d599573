/**
 * Which row is a project's live document on the connector (ADR 0063 D2).
 * `ViewOf` is the declarative reading over a set of rows; `ProjectScopeView`
 * is the code's filters and loop over a list, proved to compute that reading
 * whatever order the list is in.
 */
module ProjectHead {
  import opened Options

  type Id = string
  type Scope = string

  /** The base of a document created on the connector. */
  const BASE_NEW: Id := "new"
  const PROJECT_SCOPE_PREFIX := "project:"

  /** The vault memory types; only `working` is special to projects. */
  datatype MemoryType = Episodic | Semantic | Procedural | Working | Identity
  datatype Origin = Vault | Connector

  /** A stored row, decrypted. Absent optional fields read as their defaults. */
  datatype Row = Row(
    entryId: Id, scope: Scope, mtype: MemoryType, content: string,
    origin: Origin, pending: bool, base: Option<Id>, writeSeq: nat)

  datatype Head = HeadRow(row: Row) | Several | NoHead
  datatype View = View(head: Head, stale: set<Id>)

  predicate SlugChar(c: char) {
    'a' <= c <= 'z' || '0' <= c <= '9' || c == '-'
  }

  /** `project:` and then 1 to 40 slug characters. */
  predicate IsProjectScope(s: Scope) {
    && PROJECT_SCOPE_PREFIX <= s
    && 1 <= |s| - |PROJECT_SCOPE_PREFIX| <= 40
    && forall i :: |PROJECT_SCOPE_PREFIX| <= i < |s| ==> SlugChar(s[i])
  }

  // ---- the order on rows ---------------------------------------------------

  /** JavaScript's `a < b` on strings. */
  predicate Less(a: string, b: string) {
    if b == "" then false
    else if a == "" then true
    else if a[0] != b[0] then a[0] < b[0]
    else Less(a[1..], b[1..])
  }

  lemma {:induction false} LessTotal(a: string, b: string)
    ensures a == b || Less(a, b) || Less(b, a)
    ensures !(Less(a, b) && Less(b, a))
    ensures !Less(a, a)
  {
    if a != "" && b != "" && a[0] == b[0] {
      LessTotal(a[1..], b[1..]);
      assert a == [a[0]] + a[1..] && b == [b[0]] + b[1..];
    }
    if a != "" {
      LessTotal(a[1..], a[1..]);
    }
  }

  lemma {:induction false} LessTransitive(a: string, b: string, c: string)
    requires Less(a, b) && Less(b, c)
    ensures Less(a, c)
  {
    if a != "" && a[0] == b[0] && b[0] == c[0] {
      LessTransitive(a[1..], b[1..], c[1..]);
    }
  }

  predicate Newer(a: Row, b: Row) {
    a.writeSeq > b.writeSeq || (a.writeSeq == b.writeSeq && Less(b.entryId, a.entryId))
  }

  lemma NewerTransitive(a: Row, b: Row, c: Row)
    requires Newer(a, b) && Newer(b, c)
    ensures Newer(a, c)
  {
    if a.writeSeq == c.writeSeq {
      LessTransitive(c.entryId, b.entryId, a.entryId);
    }
  }

  // ---- the declarative reading ---------------------------------------------

  predicate PushedDoc(r: Row) { r.mtype.Working? && !r.pending }
  predicate PendingDoc(r: Row) { r.mtype.Working? && r.pending }

  /** p is a pushed document no pushed document was written after. */
  ghost predicate TopPushed(rows: set<Row>, p: Row) {
    p in rows && PushedDoc(p) && forall q :: q in rows && PushedDoc(q) ==> q.writeSeq <= p.writeSeq
  }

  ghost predicate SeveralTops(rows: set<Row>) {
    exists p, q :: TopPushed(rows, p) && TopPushed(rows, q) && p != q
  }

  /** c is a pending document on the pushed one, or a created one when nothing is pushed. */
  ghost predicate Candidate(rows: set<Row>, c: Row) {
    && c in rows && PendingDoc(c)
    && (forall p :: TopPushed(rows, p) ==> c.base == Some(p.entryId))
    && ((forall p :: !TopPushed(rows, p)) ==> c.base == Some(BASE_NEW))
  }

  ghost predicate NewestCandidate(rows: set<Row>, c: Row) {
    Candidate(rows, c) && forall d :: Candidate(rows, d) && d != c ==> Newer(c, d)
  }

  /** h is the head of these rows. */
  ghost predicate IsHead(rows: set<Row>, h: Head) {
    if SeveralTops(rows) then h == Several
    else match h
      case Several => false
      case HeadRow(r) => NewestCandidate(rows, r) || (TopPushed(rows, r) && forall c :: !Candidate(rows, c))
      case NoHead => (forall c :: !Candidate(rows, c)) && (forall p :: !TopPushed(rows, p))
  }

  ghost predicate IsView(rows: set<Row>, v: View) {
    && IsHead(rows, v.head)
    && v.stale == set r | r in rows && PendingDoc(r) && v.head != HeadRow(r) :: r.entryId
  }

  lemma OneHeadRow(rows: set<Row>, a: Row, b: Row)
    requires IsHead(rows, HeadRow(a)) && IsHead(rows, HeadRow(b))
    ensures a == b
  {
    LessTotal(a.entryId, b.entryId);
  }

  /** The rows have one view: the reading does not depend on any order. */
  lemma ViewIsUnique(rows: set<Row>, v: View, w: View)
    requires IsView(rows, v) && IsView(rows, w)
    ensures v == w
  {
    if v.head.HeadRow? && w.head.HeadRow? { OneHeadRow(rows, v.head.row, w.head.row); }
  }

  // ---- the code ------------------------------------------------------------

  function RowsOf(list: seq<Row>): (s: set<Row>) { set r | r in list }

  predicate DistinctList(list: seq<Row>) {
    forall i, j :: 0 <= i < j < |list| ==> list[i].entryId != list[j].entryId
  }

  /** The top write_seq over the pushed documents, and the rows tied at it. */
  method TiedTop(rows: seq<Row>) returns (top: int, tied: seq<Row>)
    ensures forall r :: r in rows && PushedDoc(r) ==> r.writeSeq <= top
    ensures top == -1 || exists r :: r in rows && PushedDoc(r) && r.writeSeq == top
    ensures forall r :: r in tied <==> r in rows && PushedDoc(r) && r.writeSeq == top
    ensures DistinctList(rows) ==> DistinctList(tied)
  {
    top := -1;
    for i := 0 to |rows|
      invariant top >= -1
      invariant forall r :: r in rows[..i] && PushedDoc(r) ==> r.writeSeq <= top
      invariant top == -1 || exists r :: r in rows && PushedDoc(r) && r.writeSeq == top
    {
      assert forall r :: r in rows[..i + 1] ==> r in rows[..i] || r == rows[i];
      if PushedDoc(rows[i]) && rows[i].writeSeq > top {
        top := rows[i].writeSeq;
        assert rows[i] in rows;
      }
    }
    assert rows[..|rows|] == rows;
    tied := [];
    for i := 0 to |rows|
      invariant forall r :: r in tied <==> r in rows[..i] && PushedDoc(r) && r.writeSeq == top
      invariant DistinctList(rows) ==> DistinctList(tied)
    {
      assert forall r :: r in rows[..i + 1] <==> r in rows[..i] || r == rows[i];
      if PushedDoc(rows[i]) && rows[i].writeSeq == top {
        if DistinctList(rows) {
          forall k | 0 <= k < |tied| ensures tied[k].entryId != rows[i].entryId {
            assert tied[k] in tied;
            var j :| 0 <= j < i && rows[j] == tied[k];
          }
        }
        tied := tied + [rows[i]];
      }
    }
  }

  /**
   * The D2 view of one project scope's rows. For rows of a store (no id twice)
   * the result is the declarative view of their set, so it is the same for
   * every order of the list.
   */
  method ProjectScopeView(rows: seq<Row>) returns (v: View)
    requires DistinctList(rows)
    ensures IsView(RowsOf(rows), v)
  {
    var top, tied := TiedTop(rows);
    ghost var all := RowsOf(rows);
    assert forall r :: r in tied <==> TopPushed(all, r) by {
      TiedAreTops(rows, top, tied);
    }
    var several := |tied| > 1;
    var current: Option<Row> := None;
    if several {
      assert tied[0] in tied && tied[1] in tied && tied[0].entryId != tied[1].entryId;
    } else {
      assert forall a, b :: a in tied && b in tied ==> a == b;
      var p := if |tied| == 1 then Some(tied[0]) else None;
      assert p.Some? ==> p.value in tied;
      for i := 0 to |rows|
        invariant current.None? ==> forall r :: r in rows[..i] ==> !Candidate(all, r)
        invariant current.Some? ==> current.value in rows[..i] && Candidate(all, current.value)
        invariant current.Some? ==> forall r :: r in rows[..i] && Candidate(all, r) && r != current.value ==> Newer(current.value, r)
      {
        var c := rows[i];
        assert c in all;
        assert forall r :: r in rows[..i + 1] <==> r in rows[..i] || r == c;
        var isCurrent := c.mtype.Working? && c.pending &&
                         (if p.Some? then c.base == Some(p.value.entryId) else c.base == Some(BASE_NEW));
        assert isCurrent <==> Candidate(all, c);
        if isCurrent && (current.None? || Newer(c, current.value)) {
          ghost var was := current;
          current := Some(c);
          forall r | r in rows[..i + 1] && Candidate(all, r) && r != c ensures Newer(c, r) {
            if was.Some? && r != was.value { NewerTransitive(c, was.value, r); }
          }
        } else if isCurrent {
          assert c.entryId != current.value.entryId by {
            var j :| 0 <= j < i && rows[j] == current.value;
          }
          LessTotal(c.entryId, current.value.entryId);
        }
      }
      assert rows[..|rows|] == rows;
    }
    var head := if several then Several
                else if current.Some? then HeadRow(current.value)
                else if |tied| == 1 then HeadRow(tied[0])
                else NoHead;
    if !several && |tied| == 0 {
      assert forall r :: !TopPushed(all, r);
    }
    assert |tied| == 1 ==> tied[0] in tied;
    assert SeveralTops(all) <==> several;
    v := View(head, set r | r in rows && PendingDoc(r) && head != HeadRow(r) :: r.entryId);
    assert forall r :: r in rows <==> r in all;
  }

  lemma TiedAreTops(rows: seq<Row>, top: int, tied: seq<Row>)
    requires forall r :: r in rows && PushedDoc(r) ==> r.writeSeq <= top
    requires top == -1 || exists r :: r in rows && PushedDoc(r) && r.writeSeq == top
    requires forall r :: r in tied <==> r in rows && PushedDoc(r) && r.writeSeq == top
    ensures forall r :: r in tied <==> TopPushed(RowsOf(rows), r)
  {
    forall r | TopPushed(RowsOf(rows), r) ensures r in tied {
      assert r in rows && PushedDoc(r);
      var q :| q in rows && PushedDoc(q) && q.writeSeq == top;
      assert q in RowsOf(rows);
    }
  }
}
