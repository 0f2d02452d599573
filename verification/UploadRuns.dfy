/**
 * What a device can rely on over whole runs: a version names its content, a
 * replaced version stays readable for its window, an open upload keeps what was
 * written to it, and each step succeeds exactly when it should.
 */
module UploadRuns {
  import opened Options
  import opened SyncStore
  import opened SyncHandler
  import opened SyncStorage
  import opened SyncRuns

  // ---- exactly when a step succeeds ----------------------------------------

  /** A put succeeds exactly on the current version, stores its bytes as they are, and changes nothing otherwise. */
  lemma PutSucceedsIff(sha: Bytes -> Digest, ws: seq<World>, sts: seq<Step>, i: nat)
    requires Run(sha, ws, sts) && i < |sts| && sts[i].PutStep?
    ensures SucceedsAt(sha, ws, sts, i, sts[i].h, sts[i].base) <==> VersionOf(ws[i].store, sts[i].h) == sts[i].base
    ensures VersionOf(ws[i].store, sts[i].h) == sts[i].base ==>
      sts[i].h in ws[i + 1].store.rows &&
      ws[i + 1].store.rows[sts[i].h] == Blob(sts[i].blob, None, 0, sts[i].base + 1, sha(sts[i].blob), |sts[i].blob|)
    ensures VersionOf(ws[i].store, sts[i].h) != sts[i].base ==> ws[i + 1].store == ws[i].store
  {
    assert StepAt(sha, ws, sts, i);
  }

  /**
   * A checked commit is installed exactly when its upload is still open, no
   * part was added to those that were checked, and its base is the current
   * version; else it changes nothing.
   */
  lemma CommitSucceedsIff(sha: Bytes -> Digest, ws: seq<World>, sts: seq<Step>, i: nat)
    requires Run(sha, ws, sts) && i < |sts| && sts[i].InstallStep?
    requires sts[i].c in ws[i].calls && ws[i].calls[sts[i].c].CommitChecked?
    ensures var call := ws[i].calls[sts[i].c]; var s := ws[i].store;
      && (InstallsAt(ws, sts, i) <==>
            IsOpen(s, call.h, call.id) && (forall n :: n in s.uploads[call.id].parts ==> n < |call.read|) && VersionOf(s, call.h) == call.req.base)
      && (!InstallsAt(ws, sts, i) ==> ws[i + 1].store == s)
  {
    RunKeeps(sha, ws, sts, i);
    assert StepAt(sha, ws, sts, i);
    var call := ws[i].calls[sts[i].c];
    var s := ws[i].store;
    assert CallInv(sha, ws[i], call);
    if IsOpen(s, call.h, call.id) {
      var parts := s.uploads[call.id].parts;
      if |parts| == |call.read| { CarriedAndCounted(parts, call.read); }
      if forall n :: n in parts ==> n < |call.read| { CountOfBelow(parts, call.read); }
    }
  }

  lemma CountOfBelow(parts: map<nat, Bytes>, read: seq<(nat, Bytes)>)
    requires Carries(parts, read) && forall n :: n in parts ==> n < |read|
    ensures |parts| == |read|
  {
    assert parts.Keys == Below(|read|);
  }

  // ---- a version names its content -----------------------------------------

  lemma RowStaysUnlessMoved(sha: Bytes -> Digest, ws: seq<World>, sts: seq<Step>, i: nat, h: Hash)
    requires Run(sha, ws, sts) && i < |sts| && VersionOf(ws[i + 1].store, h) == VersionOf(ws[i].store, h)
    ensures h in ws[i].store.rows <==> h in ws[i + 1].store.rows
    ensures h in ws[i].store.rows ==> ws[i + 1].store.rows[h] == ws[i].store.rows[h]
  {
    RunKeeps(sha, ws, sts, i);
    RunKeeps(sha, ws, sts, i + 1);
    assert StepAt(sha, ws, sts, i);
    if sts[i].InstallStep? { assert CallInv(sha, ws[i], ws[i].calls[sts[i].c]); }
  }

  /** Whoever reads an account's version twice and sees the same number has seen the same content. */
  lemma {:induction false} VersionNamesContent(sha: Bytes -> Digest, ws: seq<World>, sts: seq<Step>, i: nat, j: nat, h: Hash)
    requires Run(sha, ws, sts) && i <= j < |ws| && VersionOf(ws[i].store, h) == VersionOf(ws[j].store, h)
    ensures h in ws[i].store.rows <==> h in ws[j].store.rows
    ensures h in ws[i].store.rows ==> ws[j].store.rows[h] == ws[i].store.rows[h]
    decreases j
  {
    if i < j {
      VersionsGrow(sha, ws, sts, i, j - 1, h);
      VersionsGrow(sha, ws, sts, j - 1, j, h);
      VersionNamesContent(sha, ws, sts, i, j - 1, h);
      RowStaysUnlessMoved(sha, ws, sts, j - 1, h);
    }
  }

  // ---- parts are what was written ------------------------------------------

  /** The bytes of part n were sent for this upload in a step before i. */
  predicate Written(sts: seq<Step>, i: nat, h: Hash, id: string, n: nat, bytes: Bytes)
    requires i <= |sts|
  {
    exists j :: 0 <= j < i && sts[j] == PartStep(h, id, n, bytes)
  }

  ghost predicate AllWritten(ws: seq<World>, sts: seq<Step>, i: nat)
    requires |ws| == |sts| + 1 && i < |ws|
  {
    forall id, n :: id in ws[i].store.uploads && n in ws[i].store.uploads[id].parts ==>
      Written(sts, i, ws[i].store.uploads[id].tokenHash, id, n, ws[i].store.uploads[id].parts[n])
  }

  /** One step gives an upload no other part than the one it writes. */
  lemma PartsOnlyByWriting(sha: Bytes -> Digest, w: World, st: Step, id: string, n: nat)
    requires Legal(w, st) && id in Effect(sha, w, st).store.uploads && n in Effect(sha, w, st).store.uploads[id].parts
    ensures var u := Effect(sha, w, st).store.uploads[id];
      || (id in w.store.uploads && w.store.uploads[id].tokenHash == u.tokenHash && n in w.store.uploads[id].parts && w.store.uploads[id].parts[n] == u.parts[n])
      || st == PartStep(u.tokenHash, id, n, u.parts[n])
  {
    match st
    case PutStep(h, blob, base, now) => SupersedeKeeps(w.store.uploads, CurrentUpload(w.store, h), now);
    case InstallStep(c, now) => if w.calls[c].req.size >= 0 && w.calls[c].req.parts >= 0 { InstallParts(w.store, w.calls[c], now, id); }
    case _ =>
  }

  lemma InstallParts(s: Store, call: Call, now: int, id: string)
    requires call.CommitChecked? && call.req.size >= 0 && call.req.parts >= 0
    ensures var t := Install(s, call, now).0;
      t.uploads.Keys == s.uploads.Keys && (id in t.uploads ==> t.uploads[id].tokenHash == s.uploads[id].tokenHash && t.uploads[id].parts == s.uploads[id].parts)
  {
    if Install(s, call, now).1.Done? { SupersedeKeeps(Claimed(s, call, now), CurrentUpload(s, call.h), now); }
  }

  /** Every part an upload holds, open or committed, is what a part write of it carried. */
  lemma {:induction false} PartsWereWritten(sha: Bytes -> Digest, ws: seq<World>, sts: seq<Step>, i: nat)
    requires Run(sha, ws, sts) && i < |ws|
    ensures AllWritten(ws, sts, i)
  {
    if i > 0 {
      PartsWereWritten(sha, ws, sts, i - 1);
      assert StepAt(sha, ws, sts, i - 1);
      var s, t := ws[i - 1].store, ws[i].store;
      forall id, n | id in t.uploads && n in t.uploads[id].parts ensures Written(sts, i, t.uploads[id].tokenHash, id, n, t.uploads[id].parts[n]) {
        PartsOnlyByWriting(sha, ws[i - 1], sts[i - 1], id, n);
        if sts[i - 1] != PartStep(t.uploads[id].tokenHash, id, n, t.uploads[id].parts[n]) {
          assert Written(sts, i - 1, s.uploads[id].tokenHash, id, n, s.uploads[id].parts[n]);
        }
      }
    }
  }

  // ---- a replaced version stays readable -----------------------------------

  /** Step i replaces the account's upload with a newer version. */
  predicate Replaces(sha: Bytes -> Digest, ws: seq<World>, sts: seq<Step>, i: nat, h: Hash, id: string)
    requires |ws| == |sts| + 1 && i < |sts|
  {
    SucceedsAt(sha, ws, sts, i, h, VersionOf(ws[i].store, h)) && CurrentUpload(ws[i].store, h) == Some(id)
  }

  /** A committed upload of the account that was replaced at t. */
  predicate Aside(s: Store, h: Hash, id: string, t: int) {
    && id in s.uploads && s.uploads[id].tokenHash == h && s.uploads[id].state.Committed?
    && s.uploads[id].supersededAt == Some(t) && CurrentUpload(s, h) != Some(id)
  }

  lemma ReplacedIsAside(sha: Bytes -> Digest, ws: seq<World>, sts: seq<Step>, i: nat, h: Hash, id: string)
    requires Run(sha, ws, sts) && i < |sts| && Replaces(sha, ws, sts, i, h, id)
    ensures (sts[i].PutStep? || sts[i].InstallStep?) && Aside(ws[i + 1].store, h, id, sts[i].now)
    ensures id in ws[i].store.uploads && ws[i + 1].store.uploads[id].parts == ws[i].store.uploads[id].parts
    ensures ws[i].store.uploads[id].tokenHash == h && ws[i].store.uploads[id].state.Committed?
  {
    RunKeeps(sha, ws, sts, i);
    assert StepAt(sha, ws, sts, i);
    assert RowReadable(sha, ws[i].store, h);
  }

  /** The account's other uploads out of use that count as replaced at t or later. */
  function Newer(s: Store, h: Hash, id: string, t: int): set<string> {
    set x | x in SupersededIds(s, h) && x != id && SyncStore.Since(s.uploads[x]) >= t
  }

  lemma SubsetSize<T>(a: set<T>, b: set<T>)
    requires a <= b
    ensures |a| <= |b|
  {
    assert b == a + (b - a);
  }

  /** When a prune drops it within the window, three others stay, all as new. */
  lemma DroppedBehindThree(s: Store, t: Store, h: Hash, now: int, id: string, at: int)
    requires Pruned(s, t, h, now) && Aside(s, h, id, at) && now - at <= SUPERSEDED_READABLE_MS && id !in t.uploads
    ensures SUPERSEDED_KEEP_MAX <= |Newer(s, h, id, at)|
  {
    var kept := SupersededIds(s, h) * t.uploads.Keys;
    assert id in SupersededIds(s, h) - kept;
    assert |kept| == SUPERSEDED_KEEP_MAX;
    forall x | x in kept ensures x in Newer(s, h, id, at) { assert SyncStore.Since(s.uploads[id]) <= SyncStore.Since(s.uploads[x]); }
    SubsetSize(kept, Newer(s, h, id, at));
  }

  /** Within the window, and with fewer than three newer ones, pruning keeps it. */
  lemma PruneKeepsAside(s: Store, t: Store, h: Hash, now: int, id: string, at: int)
    requires Pruned(s, t, h, now) && Aside(s, h, id, at) && now - at <= SUPERSEDED_READABLE_MS && |Newer(s, h, id, at)| < SUPERSEDED_KEEP_MAX
    ensures Aside(t, h, id, at) && t.uploads[id] == s.uploads[id]
  {
    if id !in t.uploads { DroppedBehindThree(s, t, h, now, id, at); }
  }

  /** Past the window, or behind three newer ones, pruning drops it. */
  lemma PruneDropsAside(s: Store, t: Store, h: Hash, now: int, id: string, at: int)
    requires Pruned(s, t, h, now) && Aside(s, h, id, at)
    requires now - at > SUPERSEDED_READABLE_MS || |Newer(s, h, id, at + 1)| >= SUPERSEDED_KEEP_MAX
    ensures id !in t.uploads && forall n :: GetPart(t, h, id, n).None?
  {
    var kept := SupersededIds(s, h) * t.uploads.Keys;
    if id in t.uploads {
      assert id in kept;
      forall x | x in Newer(s, h, id, at + 1) ensures x in kept { }
      SubsetSize(Newer(s, h, id, at + 1) + {id}, kept);
    }
  }

  lemma PutLeavesAside(sha: Bytes -> Digest, s: Store, g: Hash, blob: Bytes, d: Digest, base: nat, now: int, h: Hash, id: string, at: int)
    requires RowsOk(sha, s) && Aside(s, h, id, at)
    ensures var t := Put(s, g, blob, d, base, now).0; Aside(t, h, id, at) && t.uploads[id] == s.uploads[id]
  {
    SupersedeKeeps(s.uploads, CurrentUpload(s, g), now);
    if g in s.rows { assert RowReadable(sha, s, g); }
  }

  lemma InstallLeavesAside(sha: Bytes -> Digest, s: Store, call: Call, now: int, h: Hash, id: string, at: int)
    requires RowsOk(sha, s) && Aside(s, h, id, at) && call.CommitChecked? && call.req.size >= 0 && call.req.parts >= 0
    ensures var t := Install(s, call, now).0; Aside(t, h, id, at) && t.uploads[id] == s.uploads[id]
  {
    if Install(s, call, now).1.Done? { SupersedeKeeps(Claimed(s, call, now), CurrentUpload(s, call.h), now); }
    if call.h in s.rows { assert RowReadable(sha, s, call.h); }
  }

  lemma OtherLeavesAside(sha: Bytes -> Digest, w: World, st: Step, h: Hash, id: string, at: int)
    requires Inv(sha, w) && Legal(w, st) && Aside(w.store, h, id, at) && !st.PutStep? && !st.InstallStep? && !(st.PruneStep? && st.h == h)
    ensures Aside(Effect(sha, w, st).store, h, id, at) && Effect(sha, w, st).store.uploads[id] == w.store.uploads[id]
  {
  }

  /** A prune of the account at step m, if it is one, comes within the window and finds fewer than three newer uploads. */
  predicate PrunesInTime(ws: seq<World>, sts: seq<Step>, m: nat, h: Hash, id: string, at: int)
    requires |ws| == |sts| + 1 && m < |sts|
  {
    sts[m].PruneStep? && sts[m].h == h ==>
      sts[m].now - at <= SUPERSEDED_READABLE_MS && |Newer(ws[m].store, h, id, at)| < SUPERSEDED_KEEP_MAX
  }

  lemma AsideStep(sha: Bytes -> Digest, ws: seq<World>, sts: seq<Step>, m: nat, h: Hash, id: string, at: int)
    requires Run(sha, ws, sts) && m < |sts| && Aside(ws[m].store, h, id, at) && PrunesInTime(ws, sts, m, h, id, at)
    ensures Aside(ws[m + 1].store, h, id, at) && ws[m + 1].store.uploads[id] == ws[m].store.uploads[id]
  {
    RunKeeps(sha, ws, sts, m);
    assert StepAt(sha, ws, sts, m);
    var w, st := ws[m], sts[m];
    if st.PruneStep? && st.h == h {
      PruneKeepsAside(w.store, ws[m + 1].store, h, st.now, id, at);
    } else if st.PutStep? {
      PutLeavesAside(sha, w.store, st.h, st.blob, sha(st.blob), st.base, st.now, h, id, at);
    } else if st.InstallStep? {
      assert CallInv(sha, w, w.calls[st.c]);
      if w.calls[st.c].req.size >= 0 && w.calls[st.c].req.parts >= 0 { InstallLeavesAside(sha, w.store, w.calls[st.c], st.now, h, id, at); }
    } else {
      OtherLeavesAside(sha, w, st, h, id, at);
    }
  }

  lemma {:induction false} AsideUntil(sha: Bytes -> Digest, ws: seq<World>, sts: seq<Step>, i: nat, j: nat, h: Hash, id: string, at: int)
    requires Run(sha, ws, sts) && i <= j < |ws| && Aside(ws[i].store, h, id, at)
    requires forall m :: i <= m < j ==> PrunesInTime(ws, sts, m, h, id, at)
    ensures Aside(ws[j].store, h, id, at) && ws[j].store.uploads[id] == ws[i].store.uploads[id]
    decreases j
  {
    if i < j {
      AsideUntil(sha, ws, sts, i, j - 1, h, id, at);
      AsideStep(sha, ws, sts, j - 1, h, id, at);
    }
  }

  // ---- which uploads are newer ---------------------------------------------

  /** Every committed upload that is not current was replaced in a step, at that step's time. */
  predicate ReplacedAt(sha: Bytes -> Digest, ws: seq<World>, sts: seq<Step>, m: nat, h: Hash, x: string, t: int)
    requires |ws| == |sts| + 1 && m < |ws|
  {
    exists l :: 0 <= l < m && Replaces(sha, ws, sts, l, h, x) && (sts[l].PutStep? || sts[l].InstallStep?) && sts[l].now == t
  }

  ghost predicate OutOfUseWereReplaced(sha: Bytes -> Digest, ws: seq<World>, sts: seq<Step>, m: nat)
    requires |ws| == |sts| + 1 && m < |ws|
  {
    forall x :: IsOut(ws[m].store, x) ==>
      ws[m].store.uploads[x].supersededAt.Some? && ReplacedAt(sha, ws, sts, m, ws[m].store.uploads[x].tokenHash, x, ws[m].store.uploads[x].supersededAt.value)
  }

  /** The upload is committed and not its account's current one. */
  predicate IsOut(s: Store, x: string) {
    x in s.uploads && s.uploads[x].state.Committed? && CurrentUpload(s, s.uploads[x].tokenHash) != Some(x)
  }

  predicate SameOut(s: Store, t: Store, x: string) {
    x in s.uploads && x in t.uploads && s.uploads[x] == t.uploads[x] && CurrentUpload(s, s.uploads[x].tokenHash) != Some(x)
  }

  lemma OutAfterPut(sha: Bytes -> Digest, s: Store, h: Hash, blob: Bytes, d: Digest, base: nat, now: int, x: string)
    requires RowsOk(sha, s)
    ensures var (t, r) := Put(s, h, blob, d, base, now);
      IsOut(t, x) ==> SameOut(s, t, x) || (r.ok && t.uploads[x].tokenHash == h && CurrentUpload(s, h) == Some(x))
  {
    SupersedeKeeps(s.uploads, CurrentUpload(s, h), now);
    if h in s.rows { assert RowReadable(sha, s, h); }
  }

  lemma OutAfterInstall(sha: Bytes -> Digest, s: Store, call: Call, now: int, x: string)
    requires RowsOk(sha, s) && call.CommitChecked? && call.req.size >= 0 && call.req.parts >= 0
    ensures var (t, r) := Install(s, call, now);
      IsOut(t, x) ==> SameOut(s, t, x) || (r.Done? && t.uploads[x].tokenHash == call.h && CurrentUpload(s, call.h) == Some(x))
  {
    if Install(s, call, now).1.Done? { SupersedeKeeps(Claimed(s, call, now), CurrentUpload(s, call.h), now); }
    if call.h in s.rows { assert RowReadable(sha, s, call.h); }
  }

  lemma OutAfterOther(sha: Bytes -> Digest, w: World, st: Step, x: string)
    requires Legal(w, st) && !st.PutStep? && !st.InstallStep? && IsOut(Effect(sha, w, st).store, x)
    ensures SameOut(w.store, Effect(sha, w, st).store, x)
  {
  }

  /** An upload out of use after a step was so before, unchanged, or the step replaced it. */
  lemma OutOfUseStep(sha: Bytes -> Digest, ws: seq<World>, sts: seq<Step>, m: nat, x: string)
    requires Run(sha, ws, sts) && m < |sts| && IsOut(ws[m + 1].store, x)
    ensures SameOut(ws[m].store, ws[m + 1].store, x) || Replaces(sha, ws, sts, m, ws[m + 1].store.uploads[x].tokenHash, x)
  {
    RunKeeps(sha, ws, sts, m);
    assert StepAt(sha, ws, sts, m);
    match sts[m]
    case PutStep(h, blob, base, now) => OutAfterPut(sha, ws[m].store, h, blob, sha(blob), base, now, x);
    case InstallStep(c, now) =>
      assert CallInv(sha, ws[m], ws[m].calls[c]);
      if ws[m].calls[c].req.size >= 0 && ws[m].calls[c].req.parts >= 0 { OutAfterInstall(sha, ws[m].store, ws[m].calls[c], now, x); }
    case _ => OutAfterOther(sha, ws[m], sts[m], x);
  }

  lemma {:induction false} OutOfUse(sha: Bytes -> Digest, ws: seq<World>, sts: seq<Step>, m: nat)
    requires Run(sha, ws, sts) && m < |ws|
    ensures OutOfUseWereReplaced(sha, ws, sts, m)
  {
    if m > 0 {
      OutOfUse(sha, ws, sts, m - 1);
      forall x | IsOut(ws[m].store, x)
        ensures ws[m].store.uploads[x].supersededAt.Some? &&
          ReplacedAt(sha, ws, sts, m, ws[m].store.uploads[x].tokenHash, x, ws[m].store.uploads[x].supersededAt.value)
      {
        OutOfUseStep(sha, ws, sts, m - 1, x);
        if Replaces(sha, ws, sts, m - 1, ws[m].store.uploads[x].tokenHash, x) {
          ReplacedIsAside(sha, ws, sts, m - 1, ws[m].store.uploads[x].tokenHash, x);
        } else {
          var t := ws[m].store.uploads[x].supersededAt.value;
          assert ReplacedAt(sha, ws, sts, m - 1, ws[m].store.uploads[x].tokenHash, x, t);
        }
      }
    }
  }

  /** The account's uploads that were replaced in the steps between i and m. */
  function ReplacedBetween(sha: Bytes -> Digest, ws: seq<World>, sts: seq<Step>, i: nat, m: nat, h: Hash): set<string>
    requires |ws| == |sts| + 1 && m < |ws|
  {
    set x | x in ws[m].store.uploads && exists l :: i < l < m && Replaces(sha, ws, sts, l, h, x)
  }

  lemma NewerWereReplaced(sha: Bytes -> Digest, ws: seq<World>, sts: seq<Step>, i: nat, m: nat, h: Hash, id: string)
    requires Run(sha, ws, sts) && i < m < |ws| && m <= |sts| && Replaces(sha, ws, sts, i, h, id)
    requires sts[i].PutStep? || sts[i].InstallStep?
    requires forall l, x :: 0 <= l < i && Replaces(sha, ws, sts, l, h, x) && (sts[l].PutStep? || sts[l].InstallStep?) ==> sts[l].now < sts[i].now
    ensures Newer(ws[m].store, h, id, sts[i].now) <= ReplacedBetween(sha, ws, sts, i, m, h)
  {
    OutOfUse(sha, ws, sts, m);
    forall x | x in Newer(ws[m].store, h, id, sts[i].now) ensures x in ReplacedBetween(sha, ws, sts, i, m, h) {
      var t := ws[m].store.uploads[x].supersededAt.value;
      var l :| 0 <= l < m && Replaces(sha, ws, sts, l, h, x) && (sts[l].PutStep? || sts[l].InstallStep?) && sts[l].now == t;
    }
  }

  /**
   * A version in parts that a newer one replaces at t stays readable, byte for
   * byte, while the account's prunes run no later than the readable time after
   * t and find fewer than three of its uploads replaced since. The account's
   * earlier replacements carry earlier times.
   */
  lemma ReplacedStaysReadable(sha: Bytes -> Digest, ws: seq<World>, sts: seq<Step>, i: nat, j: nat, h: Hash, id: string)
    requires Run(sha, ws, sts) && i < j < |ws| && Replaces(sha, ws, sts, i, h, id) && (sts[i].PutStep? || sts[i].InstallStep?)
    requires forall l, x :: 0 <= l < i && Replaces(sha, ws, sts, l, h, x) && (sts[l].PutStep? || sts[l].InstallStep?) ==> sts[l].now < sts[i].now
    requires forall m :: i < m < j && sts[m].PruneStep? && sts[m].h == h ==>
      sts[m].now <= sts[i].now + SUPERSEDED_READABLE_MS && |ReplacedBetween(sha, ws, sts, i, m, h)| < SUPERSEDED_KEEP_MAX
    ensures forall n :: GetPart(ws[j].store, h, id, n) == GetPart(ws[i].store, h, id, n)
  {
    ReplacedIsAside(sha, ws, sts, i, h, id);
    forall m | i + 1 <= m < j ensures PrunesInTime(ws, sts, m, h, id, sts[i].now) {
      NewerWereReplaced(sha, ws, sts, i, m, h, id);
      SubsetSize(Newer(ws[m].store, h, id, sts[i].now), ReplacedBetween(sha, ws, sts, i, m, h));
    }
    AsideUntil(sha, ws, sts, i + 1, j, h, id, sts[i].now);
  }

  // ---- an open upload stays open -------------------------------------------

  /** The upload is open since t. */
  predicate OpenSince(s: Store, h: Hash, id: string, t: int) { IsOpen(s, h, id) && s.uploads[id].createdAt == t }

  /** Opening makes it open from now on. */
  lemma Opened(sha: Bytes -> Digest, ws: seq<World>, sts: seq<Step>, i: nat)
    requires Run(sha, ws, sts) && i < |sts| && sts[i].CreateStep?
    ensures OpenSince(ws[i + 1].store, sts[i].h, sts[i].id, sts[i].now) && ws[i + 1].store.uploads[sts[i].id].parts == map[]
  {
    assert StepAt(sha, ws, sts, i);
  }

  /** What ends an open upload: a newer one of the account, its commit, or a prune after its time. */
  predicate EndsUpload(ws: seq<World>, sts: seq<Step>, i: nat, h: Hash, id: string, t: int)
    requires |ws| == |sts| + 1 && i < |sts|
  {
    || (sts[i].CreateStep? && sts[i].h == h)
    || (InstallsAt(ws, sts, i) && ws[i].calls[sts[i].c].id == id)
    || (sts[i].PruneStep? && sts[i].h == h && sts[i].now - t > OPEN_UPLOAD_TTL_MS)
  }

  lemma OpenAfterPut(sha: Bytes -> Digest, s: Store, g: Hash, blob: Bytes, d: Digest, base: nat, now: int, h: Hash, id: string, t: int)
    requires RowsOk(sha, s) && OpenSince(s, h, id, t)
    ensures OpenSince(Put(s, g, blob, d, base, now).0, h, id, t)
  {
    SupersedeKeeps(s.uploads, CurrentUpload(s, g), now);
  }

  lemma OpenAfterInstall(s: Store, call: Call, now: int, h: Hash, id: string, t: int)
    requires call.CommitChecked? && call.req.size >= 0 && call.req.parts >= 0 && OpenSince(s, h, id, t)
    ensures OpenSince(Install(s, call, now).0, h, id, t) <==> !(Install(s, call, now).1.Done? && call.id == id)
  {
    if Install(s, call, now).1.Done? { SupersedeKeeps(Claimed(s, call, now), CurrentUpload(s, call.h), now); }
  }

  lemma OpenAfterPrune(sha: Bytes -> Digest, s: Store, g: Hash, now: int, left: Store, h: Hash, id: string, t: int)
    requires RowsOk(sha, s) && OpenSince(s, h, id, t) && Pruned(s, left, g, now)
    ensures OpenSince(left, h, id, t) <==> !(g == h && now - t > OPEN_UPLOAD_TTL_MS)
  {
    assert h in s.rows ==> RowReadable(sha, s, h);
  }

  lemma OpenAfterOther(sha: Bytes -> Digest, w: World, st: Step, h: Hash, id: string, t: int)
    requires Inv(sha, w) && Legal(w, st) && OpenSince(w.store, h, id, t) && !st.PutStep? && !st.InstallStep? && !st.PruneStep?
    ensures OpenSince(Effect(sha, w, st).store, h, id, t) <==> !(st.CreateStep? && st.h == h)
  {
  }

  /** An open upload is open after a step exactly when the step does not end it; and it keeps its parts. */
  lemma OpenStaysIff(sha: Bytes -> Digest, ws: seq<World>, sts: seq<Step>, i: nat, h: Hash, id: string, t: int)
    requires Run(sha, ws, sts) && i < |sts| && OpenSince(ws[i].store, h, id, t)
    ensures OpenSince(ws[i + 1].store, h, id, t) <==> !EndsUpload(ws, sts, i, h, id, t)
    ensures OpenSince(ws[i + 1].store, h, id, t) ==> forall n :: n in ws[i].store.uploads[id].parts ==>
      n in ws[i + 1].store.uploads[id].parts && ws[i + 1].store.uploads[id].parts[n] == ws[i].store.uploads[id].parts[n]
  {
    RunKeeps(sha, ws, sts, i);
    OneStepGrows(sha, ws, sts, i);
    assert StepAt(sha, ws, sts, i);
    match sts[i]
    case PutStep(g, blob, base, now) => OpenAfterPut(sha, ws[i].store, g, blob, sha(blob), base, now, h, id, t);
    case PruneStep(g, now, left) => OpenAfterPrune(sha, ws[i].store, g, now, left, h, id, t);
    case InstallStep(c, now) =>
      assert CallInv(sha, ws[i], ws[i].calls[c]);
      if ws[i].calls[c].req.size >= 0 && ws[i].calls[c].req.parts >= 0 { OpenAfterInstall(ws[i].store, ws[i].calls[c], now, h, id, t); }
    case _ => OpenAfterOther(sha, ws[i], sts[i], h, id, t);
  }

  /** A part written to an open upload is there, with the bytes of its first writing. */
  lemma PartIsThere(sha: Bytes -> Digest, ws: seq<World>, sts: seq<Step>, i: nat)
    requires Run(sha, ws, sts) && i < |sts| && sts[i].PartStep? && IsOpen(ws[i].store, sts[i].h, sts[i].id)
    ensures var before, after := ws[i].store.uploads[sts[i].id].parts, ws[i + 1].store.uploads;
      && IsOpen(ws[i + 1].store, sts[i].h, sts[i].id) && sts[i].n in after[sts[i].id].parts
      && after[sts[i].id].parts[sts[i].n] == if sts[i].n in before then before[sts[i].n] else sts[i].bytes
  {
    assert StepAt(sha, ws, sts, i);
  }

  // ---- the check of a commit -----------------------------------------------

  /** A commit goes on to be installed exactly when its upload is open and the parts read from it pass the check. */
  lemma CheckGoesOnIff(sha: Bytes -> Digest, ws: seq<World>, sts: seq<Step>, i: nat)
    requires Run(sha, ws, sts) && i < |sts| && sts[i].CheckStep?
    ensures var c, read := sts[i].c, sts[i].read;
      && c in ws[i].calls && ws[i].calls[c].CommitAsked? && c in ws[i + 1].calls && ws[i + 1].store == ws[i].store
      && var call := ws[i].calls[c];
         ws[i + 1].calls[c] == CommitChecked(call.h, call.id, call.req, read) <==>
           IsOpen(ws[i].store, call.h, call.id) && Lists(read, ws[i].store.uploads[call.id].parts) && Good(read, call.req, sha)
  {
    assert StepAt(sha, ws, sts, i);
  }
}
