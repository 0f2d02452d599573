/** The in-memory sync store: two maps updated in place, and the pruning loop with its sort. */
module SyncStorage {
  import opened Options
  import opened SyncStore

  class InMemoryStorage {
    var rows: map<Hash, Blob>
    var uploads: map<string, Upload>

    ghost function Value(): Store
      reads this
    {
      Store(rows, uploads)
    }

    constructor ()
      ensures Value() == Store(map[], map[])
    {
      rows, uploads := map[], map[];
    }

    method Supersede(id: Option<string>, now: int)
      modifies this`uploads
      ensures uploads == Superseded(old(uploads), id, now)
    {
      if id.Some? && id.value in uploads {
        uploads := uploads[id.value := uploads[id.value].(supersededAt := Some(now))];
      }
    }

    method PutBlob(h: Hash, blob: Bytes, sha256: Digest, base: nat, now: int) returns (res: PutResult)
      modifies this
      ensures (Value(), res) == Put(old(Value()), h, blob, sha256, base, now)
    {
      var current := if h in rows then rows[h].version else 0;
      if current != base { return PutResult(false, current); }
      var replaced := if h in rows then rows[h].uploadId else None;
      Supersede(replaced, now);
      rows := rows[h := Blob(blob, None, 0, current + 1, sha256, |blob|)];
      res := PutResult(true, current + 1);
    }

    method OpenUpload(h: Hash, id: string, now: int)
      modifies this`uploads
      ensures Value() == CreateUpload(old(Value()), h, id, now)
    {
      var todo := uploads.Keys;
      while todo != {}
        invariant todo <= old(uploads).Keys == uploads.Keys
        invariant forall x :: x in uploads ==>
          uploads[x] == if x in todo then old(uploads)[x] else AllReplaced(old(uploads), h)[x]
        decreases todo
      {
        var x :| x in todo;
        todo := todo - {x};
        if uploads[x].tokenHash == h && uploads[x].state.Open? { uploads := uploads[x := uploads[x].(state := Replaced)]; }
      }
      assert uploads == AllReplaced(old(uploads), h);
      uploads := uploads[id := Upload(h, Open, now, None, None, map[])];
    }

    method WritePart(h: Hash, id: string, n: nat, bytes: Bytes) returns (ok: bool)
      modifies this`uploads
      ensures (Value(), ok) == PutPart(old(Value()), h, id, n, bytes)
    {
      if id !in uploads || uploads[id].tokenHash != h || uploads[id].state != Open { return false; }
      var u := uploads[id];
      if n !in u.parts { uploads := uploads[id := u.(parts := u.parts[n := bytes])]; }
      ok := true;
    }

    /** The open upload's parts in index order. */
    method ReadOpenParts(h: Hash, id: string) returns (list: Option<seq<(nat, Bytes)>>)
      ensures list.Some? <==> IsOpen(Value(), h, id)
      ensures list.Some? ==> Lists(list.value, uploads[id].parts)
    {
      if id !in uploads || uploads[id].tokenHash != h || uploads[id].state != Open { return None; }
      var sorted := SortedEntries(uploads[id].parts);
      list := Some(sorted);
    }

    method CommitUpload(h: Hash, id: string, base: nat, sha256: Digest, size: nat, parts: nat, now: int) returns (res: CommitResult)
      modifies this
      ensures (Value(), res) == Commit(old(Value()), h, id, base, sha256, size, parts, now)
    {
      if id !in uploads || uploads[id].tokenHash != h || uploads[id].state != Open || |uploads[id].parts| != parts {
        return WasReplaced;
      }
      var current := if h in rows then rows[h].version else 0;
      if current != base { return Conflict(current); }
      uploads := uploads[id := uploads[id].(state := Committed, committedAt := Some(now))];
      var replaced := if h in rows then rows[h].uploadId else None;
      Supersede(replaced, now);
      rows := rows[h := Blob([], Some(id), parts, current + 1, sha256, size)];
      res := Done(current + 1);
    }

    method ReadPart(h: Hash, id: string, n: nat) returns (bytes: Option<Bytes>)
      ensures bytes == GetPart(Value(), h, id, n)
    {
      if id !in uploads || uploads[id].tokenHash != h || uploads[id].state != Committed || n !in uploads[id].parts { return None; }
      bytes := Some(uploads[id].parts[n]);
    }

    method PruneUploads(h: Hash, now: int)
      modifies this`uploads
      ensures Pruned(old(Value()), Value(), h, now)
    {
      var current := if h in rows then rows[h].uploadId else None;
      ghost var s := Value();
      var superseded: seq<string> := [];
      var todo := uploads.Keys;
      while todo != {}
        invariant todo <= s.uploads.Keys
        invariant forall id :: id in uploads ==> id in s.uploads && uploads[id] == s.uploads[id]
        invariant forall id :: id in s.uploads ==>
          (id in uploads <==> id in todo || !(Mine(s, h, id) && Expired(s.uploads[id], now)))
        invariant forall id :: id in superseded <==> id in SupersededIds(s, h) && id !in todo
        invariant NoRepeats(superseded)
        decreases todo
      {
        var id :| id in todo;
        todo := todo - {id};
        var u := uploads[id];
        if u.tokenHash != h || current == Some(id) {
        } else if u.state == Replaced || (u.state == Open && now - u.createdAt > OPEN_UPLOAD_TTL_MS) {
          uploads := uploads - {id};
        } else if u.state == Committed {
          superseded := superseded + [id];
        }
      }
      var sorted := NewestFirst(superseded, uploads);
      DropSuperseded(sorted, now, s, h);
    }

    /** Deletes what is past the first SUPERSEDED_KEEP_MAX of the list, or too old. */
    method DropSuperseded(sorted: seq<string>, now: int, ghost s: Store, ghost h: Hash)
      requires s.rows == rows && NoRepeats(sorted) && forall id :: id in sorted <==> id in SupersededIds(s, h)
      requires forall id :: id in uploads ==> id in s.uploads && uploads[id] == s.uploads[id]
      requires forall id :: id in s.uploads ==> (id in uploads <==> !(Mine(s, h, id) && Expired(s.uploads[id], now)))
      requires DescendingBySince(sorted, s.uploads)
      modifies this`uploads
      ensures Pruned(s, Value(), h, now)
    {
      ghost var before := uploads;
      forall j | 0 <= j < |sorted| ensures sorted[j] in s.uploads && sorted[j] in before { assert sorted[j] in sorted; }
      for i := 0 to |sorted|
        invariant forall id :: id in uploads ==> id in before && uploads[id] == before[id]
        invariant forall id :: id in before && id !in sorted ==> id in uploads
        invariant forall j :: 0 <= j < |sorted| ==>
          (sorted[j] in uploads <==> j >= i || (j < SUPERSEDED_KEEP_MAX && !TooOld(s.uploads[sorted[j]], now)))
      {
        assert sorted[i] in sorted;
        if i >= SUPERSEDED_KEEP_MAX || now - Since(uploads[sorted[i]]) > SUPERSEDED_READABLE_MS {
          uploads := uploads - {sorted[i]};
        }
      }
      PrefixIsPruned(s, Value(), h, now, sorted);
    }
  }

  predicate NoRepeats(l: seq<string>) { forall i, j :: 0 <= i < j < |l| ==> l[i] != l[j] }

  predicate DescendingBySince(l: seq<string>, uploads: map<string, Upload>)
    requires forall id :: id in l ==> id in uploads
  {
    forall i, j :: 0 <= i < j < |l| ==> Since(uploads[l[j]]) <= Since(uploads[l[i]])
  }

  /** The kept ones are a prefix of the newest-first list, as long as it may be. */
  lemma PrefixIsPruned(s: Store, t: Store, h: Hash, now: int, sorted: seq<string>)
    requires t.rows == s.rows && NoRepeats(sorted) && forall id :: id in sorted <==> id in SupersededIds(s, h)
    requires DescendingBySince(sorted, s.uploads)
    requires forall id :: id in t.uploads ==> id in s.uploads && t.uploads[id] == s.uploads[id]
    requires forall id :: id in s.uploads && id !in sorted ==> (id in t.uploads <==> !(Mine(s, h, id) && Expired(s.uploads[id], now)))
    requires forall j :: 0 <= j < |sorted| ==>
      (sorted[j] in t.uploads <==> j < SUPERSEDED_KEEP_MAX && !TooOld(s.uploads[sorted[j]], now))
    ensures Pruned(s, t, h, now)
  {
    var kept := SupersededIds(s, h) * t.uploads.Keys;
    var n := KeptPrefix(s, now, sorted);
    assert kept == set id | id in sorted[..n] by {
      forall id | id in kept ensures id in sorted[..n] {
        var j :| 0 <= j < |sorted| && sorted[j] == id;
        assert j < n;
        assert sorted[..n][j] == id;
      }
      forall id | id in sorted[..n] ensures id in kept {
        var j :| 0 <= j < n && sorted[j] == id;
        assert sorted[j] in sorted;
      }
    }
    SizeOfList(sorted[..n]);
    forall j | 0 <= j < n ensures sorted[j] in kept { assert sorted[..n][j] == sorted[j]; }
    forall id | id in SupersededIds(s, h) - kept ensures n == SUPERSEDED_KEEP_MAX || TooOld(s.uploads[id], now)
    {
      var j :| 0 <= j < |sorted| && sorted[j] == id;
    }
    forall id, x | id in kept && x in SupersededIds(s, h) - kept ensures Since(s.uploads[x]) <= Since(s.uploads[id]) {
      var i :| 0 <= i < n && sorted[i] == id;
      var j :| 0 <= j < |sorted| && sorted[j] == x;
    }
  }

  /** How many of the list stay. */
  lemma KeptPrefix(s: Store, now: int, sorted: seq<string>) returns (n: nat)
    requires forall id :: id in sorted ==> id in s.uploads
    requires DescendingBySince(sorted, s.uploads)
    ensures n <= |sorted| && n <= SUPERSEDED_KEEP_MAX
    ensures forall j :: 0 <= j < |sorted| ==> (j < n <==> j < SUPERSEDED_KEEP_MAX && !TooOld(s.uploads[sorted[j]], now))
    ensures n < SUPERSEDED_KEEP_MAX ==> forall j :: n <= j < |sorted| ==> TooOld(s.uploads[sorted[j]], now)
  {
    n := 0;
    while n < |sorted| && n < SUPERSEDED_KEEP_MAX && !TooOld(s.uploads[sorted[n]], now)
      invariant n <= |sorted| && n <= SUPERSEDED_KEEP_MAX
      invariant forall j :: 0 <= j < n ==> !TooOld(s.uploads[sorted[j]], now)
    {
      n := n + 1;
    }
  }

  lemma {:induction false} SizeOfList(l: seq<string>)
    requires NoRepeats(l)
    ensures |(set id | id in l)| == |l|
  {
    if l != [] {
      var n := |l| - 1;
      SizeOfList(l[..n]);
      assert (set id | id in l) == (set id | id in l[..n]) + {l[n]};
    }
  }

  /** The stable sort by falling Since, as an insertion sort. */
  method NewestFirst(list: seq<string>, uploads: map<string, Upload>) returns (sorted: seq<string>)
    requires NoRepeats(list) && forall id :: id in list ==> id in uploads
    ensures NoRepeats(sorted) && forall id :: id in sorted <==> id in list
    ensures DescendingBySince(sorted, uploads)
  {
    sorted := [];
    for i := 0 to |list|
      invariant NoRepeats(sorted) && forall id :: id in sorted <==> id in list[..i]
      invariant DescendingBySince(sorted, uploads)
    {
      var id, k := list[i], 0;
      assert id in list && id !in list[..i];
      forall j | 0 <= j < |sorted| ensures sorted[j] in uploads && sorted[j] != id {
        assert sorted[j] in sorted && sorted[j] in list;
      }
      while k < |sorted| && Since(uploads[sorted[k]]) >= Since(uploads[id])
        invariant k <= |sorted|
        invariant forall j :: 0 <= j < k ==> Since(uploads[sorted[j]]) >= Since(uploads[id])
      {
        k := k + 1;
      }
      ghost var was := sorted;
      sorted := sorted[..k] + [id] + sorted[k..];
      assert forall x :: x in sorted <==> x in was || x == id by {
        assert was == was[..k] + was[k..];
      }
      assert forall x :: x in list[..i + 1] <==> x in list[..i] || x == id;
    }
    assert list[..|list|] == list;
  }

  /** The entries of a part map, by rising index. */
  predicate Lists(list: seq<(nat, Bytes)>, parts: map<nat, Bytes>) {
    && |list| == |parts|
    && (forall i :: 0 <= i < |list| ==> list[i].0 in parts && parts[list[i].0] == list[i].1)
    && (forall i, j :: 0 <= i < j < |list| ==> list[i].0 < list[j].0)
  }

  /** `[...parts.entries()].sort((a, b) => a[0] - b[0])`. */
  method SortedEntries(parts: map<nat, Bytes>) returns (list: seq<(nat, Bytes)>)
    ensures Lists(list, parts)
  {
    list := [];
    var todo := parts.Keys;
    while todo != {}
      invariant todo <= parts.Keys && |list| + |todo| == |parts|
      invariant forall i :: 0 <= i < |list| ==> list[i].0 in parts && list[i].0 !in todo && parts[list[i].0] == list[i].1
      invariant forall i, j :: 0 <= i < j < |list| ==> list[i].0 < list[j].0
      decreases todo
    {
      var n :| n in todo;
      todo := todo - {n};
      var k := 0;
      while k < |list| && list[k].0 < n
        invariant k <= |list| && forall j :: 0 <= j < k ==> list[j].0 < n
      {
        k := k + 1;
      }
      list := list[..k] + [(n, parts[n])] + list[k..];
    }
  }
}
