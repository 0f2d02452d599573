/**
 * The part-upload protocol over every interleaved run: a commit reads and
 * checks the open upload in one step and installs it in a later one, with puts,
 * part writes, new uploads and prunes of any account in between.
 */
module SyncRuns {
  import opened Options
  import opened SyncStore
  import opened SyncHandler
  import opened SyncStorage

  datatype Call =
    | CommitAsked(h: Hash, id: string, req: CommitReq)
    | CommitChecked(h: Hash, id: string, req: CommitReq, read: seq<(nat, Bytes)>)
    | CommitEnded

  datatype World = World(store: Store, calls: map<nat, Call>, used: set<string>)

  datatype Step =
    | PutStep(h: Hash, blob: Bytes, base: nat, now: int)
    | CreateStep(h: Hash, id: string, now: int)
    | PartStep(h: Hash, id: string, n: nat, bytes: Bytes)
    | PruneStep(h: Hash, now: int, left: Store)
    | AskStep(c: nat, h: Hash, id: string, req: CommitReq)
    | CheckStep(c: nat, read: seq<(nat, Bytes)>)
    | InstallStep(c: nat, now: int)

  predicate Legal(w: World, st: Step) {
    match st
    case PutStep(_, _, _, _) => true
    case CreateStep(_, id, _) => id !in w.used
    case PartStep(_, _, _, bytes) => 1 <= |bytes| <= PART_BYTES
    case PruneStep(h, now, left) => Pruned(w.store, left, h, now)
    case AskStep(c, _, _, req) => c !in w.calls
    case CheckStep(c, read) =>
      c in w.calls && w.calls[c].CommitAsked? &&
      (IsOpen(w.store, w.calls[c].h, w.calls[c].id) ==> Lists(read, w.store.uploads[w.calls[c].id].parts))
    case InstallStep(c, _) => c in w.calls && w.calls[c].CommitChecked?
  }

  function Install(s: Store, call: Call, now: int): (Store, CommitResult)
    requires call.CommitChecked? && call.req.size >= 0 && call.req.parts >= 0
  {
    Commit(s, call.h, call.id, call.req.base, call.req.sha256, call.req.size, call.req.parts, now)
  }

  function Effect(sha: Bytes -> Digest, w: World, st: Step): World
    requires Legal(w, st)
  {
    var s := w.store;
    match st
    case PutStep(h, blob, base, now) => w.(store := Put(s, h, blob, sha(blob), base, now).0)
    case CreateStep(h, id, now) => w.(store := CreateUpload(s, h, id, now), used := w.used + {id})
    case PartStep(h, id, n, bytes) => w.(store := PutPart(s, h, id, n, bytes).0)
    case PruneStep(_, _, left) => w.(store := left)
    case AskStep(c, h, id, req) => w.(calls := w.calls[c := CommitAsked(h, id, req)])
    case CheckStep(c, read) =>
      var call := w.calls[c];
      w.(calls := w.calls[c :=
        if IsOpen(s, call.h, call.id) && Good(read, call.req, sha) then CommitChecked(call.h, call.id, call.req, read) else CommitEnded])
    case InstallStep(c, now) =>
      var call := w.calls[c];
      w.(store := if call.req.size >= 0 && call.req.parts >= 0 then Install(s, call, now).0 else s, calls := w.calls[c := CommitEnded])
  }

  // ---- what every state keeps ----------------------------------------------

  /** The bytes of parts 0..n-1 in order. */
  function Joined(parts: map<nat, Bytes>, n: nat): Bytes
    requires forall i :: 0 <= i < n ==> i in parts
  {
    if n == 0 then [] else Joined(parts, n - 1) + parts[n - 1]
  }

  predicate Sized(parts: map<nat, Bytes>) { forall n :: n in parts ==> 1 <= |parts[n]| <= PART_BYTES }

  ghost predicate Whole(parts: map<nat, Bytes>) {
    |parts| >= 1 && (forall n :: n in parts <==> 0 <= n < |parts|) && forall n :: 0 <= n < |parts| - 1 ==> |parts[n]| == PART_BYTES
  }

  /** The account's version can be read back whole, with the size and digest on its row. */
  ghost predicate RowReadable(sha: Bytes -> Digest, s: Store, h: Hash)
    requires h in s.rows
  {
    var row := s.rows[h];
    match row.uploadId
    case None => row.parts == 0 && |row.blob| == row.size && sha(row.blob) == row.sha256
    case Some(id) =>
      && id in s.uploads && s.uploads[id].tokenHash == h && s.uploads[id].state.Committed?
      && Whole(s.uploads[id].parts) && |s.uploads[id].parts| == row.parts && row.blob == []
      && |Joined(s.uploads[id].parts, row.parts)| == row.size && sha(Joined(s.uploads[id].parts, row.parts)) == row.sha256
  }

  ghost predicate OneOpen(s: Store) {
    forall a, b ::
      (a in s.uploads && b in s.uploads && s.uploads[a].state.Open? && s.uploads[b].state.Open? &&
       s.uploads[a].tokenHash == s.uploads[b].tokenHash) ==> a == b
  }

  ghost predicate UploadsOk(s: Store) {
    && (forall id :: id in s.uploads ==> Sized(s.uploads[id].parts))
    && (forall id :: id in s.uploads && s.uploads[id].state.Committed? ==> Whole(s.uploads[id].parts))
  }

  ghost predicate RowsOk(sha: Bytes -> Digest, s: Store) {
    forall h :: h in s.rows ==> s.rows[h].version >= 1 && RowReadable(sha, s, h)
  }

  ghost predicate StoreInv(sha: Bytes -> Digest, s: Store) { UploadsOk(s) && OneOpen(s) && RowsOk(sha, s) }

  /** What was read and checked is still in the upload, while the upload exists. */
  ghost predicate CallInv(sha: Bytes -> Digest, w: World, call: Call) {
    call.CommitChecked? ==>
      Good(call.read, call.req, sha) && (forall i :: 0 <= i < |call.read| ==> 1 <= |call.read[i].1| <= PART_BYTES) &&
      call.id in w.used &&
      (call.id in w.store.uploads ==> w.store.uploads[call.id].tokenHash == call.h && Carries(w.store.uploads[call.id].parts, call.read))
  }

  predicate Carries(parts: map<nat, Bytes>, read: seq<(nat, Bytes)>) {
    forall i :: 0 <= i < |read| ==> i in parts && parts[i] == read[i].1
  }

  ghost predicate Inv(sha: Bytes -> Digest, w: World) {
    && StoreInv(sha, w.store)
    && w.store.uploads.Keys <= w.used
    && forall c :: c in w.calls ==> CallInv(sha, w, w.calls[c])
  }

  /** Uploads keep their owner and their parts, committed ones for good. */
  ghost predicate UploadsGrow(s: Store, t: Store, used: set<string>) {
    forall id :: id in t.uploads && id in used ==> id in s.uploads && UploadGrows(s.uploads[id], t.uploads[id])
  }

  ghost predicate UploadGrows(u: Upload, v: Upload) {
    && u.tokenHash == v.tokenHash
    && (forall n :: n in u.parts ==> n in v.parts && v.parts[n] == u.parts[n])
    && (u.state.Committed? ==> v.state.Committed? && v.parts == u.parts)
  }

  /** ... and versions never fall. */
  ghost predicate Grows(s: Store, t: Store, used: set<string>) {
    UploadsGrow(s, t, used) && forall h :: VersionOf(s, h) <= VersionOf(t, h) <= VersionOf(s, h) + 1
  }

  // ---- the checked parts are the installed ones ----------------------------

  /** As many parts as were checked, the checked ones among them: exactly the checked ones. */
  lemma CarriedAndCounted(parts: map<nat, Bytes>, read: seq<(nat, Bytes)>)
    requires Carries(parts, read) && |parts| == |read|
    ensures forall n :: n in parts <==> 0 <= n < |read|
  {
    var idx := Below(|read|);
    assert idx <= parts.Keys;
    SubsetOfSameSize(idx, parts.Keys);
  }

  function Below(n: nat): (s: set<nat>)
    ensures forall i :: i in s <==> 0 <= i < n
    ensures |s| == n
  {
    if n == 0 then {} else Below(n - 1) + {n - 1}
  }

  lemma SubsetOfSameSize<T>(a: set<T>, b: set<T>)
    requires a <= b && |a| == |b|
    ensures a == b
  {
    assert b == a + (b - a);
  }

  lemma {:induction false} JoinedIsConcat(parts: map<nat, Bytes>, read: seq<(nat, Bytes)>)
    requires Carries(parts, read)
    ensures Joined(parts, |read|) == Concat(read)
  {
    if read != [] { JoinedIsConcat(parts, read[..|read| - 1]); }
  }

  /** A listing of a part map at contiguous indices is the map. */
  lemma ListingCarries(parts: map<nat, Bytes>, read: seq<(nat, Bytes)>)
    requires Lists(read, parts) && Contiguous(read)
    ensures Carries(parts, read)
  {
    forall i | 0 <= i < |read| ensures i in parts && parts[i] == read[i].1 { assert read[i].0 == i; }
  }

  /** A row nobody replaced stays readable while its upload stays. */
  lemma RowsStay(sha: Bytes -> Digest, s: Store, t: Store, changed: set<Hash>)
    requires RowsOk(sha, s) && t.rows.Keys <= s.rows.Keys + changed
    requires forall h :: h in t.rows && h !in changed ==> t.rows[h] == s.rows[h]
    requires forall h :: h in t.rows && h !in changed && t.rows[h].uploadId.Some? ==>
      Kept(s, t, t.rows[h].uploadId.value)
    requires forall h :: h in t.rows && h in changed ==> t.rows[h].version >= 1 && RowReadable(sha, t, h)
    ensures RowsOk(sha, t)
  {
    forall h | h in t.rows && h !in changed ensures t.rows[h].version >= 1 && RowReadable(sha, t, h) {
      assert RowReadable(sha, s, h);
      if t.rows[h].uploadId.Some? { assert Kept(s, t, t.rows[h].uploadId.value); }
    }
  }

  predicate Kept(s: Store, t: Store, id: string) {
    id in s.uploads ==>
      id in t.uploads && t.uploads[id].tokenHash == s.uploads[id].tokenHash && t.uploads[id].parts == s.uploads[id].parts &&
      (s.uploads[id].state.Committed? ==> t.uploads[id].state.Committed?)
  }

  /** Superseding changes a time only. */
  lemma SupersedeKeeps(uploads: map<string, Upload>, id: Option<string>, now: int)
    ensures var r := Superseded(uploads, id, now);
      r.Keys == uploads.Keys &&
      forall x :: x in uploads ==>
        && r[x].tokenHash == uploads[x].tokenHash && r[x].state == uploads[x].state && r[x].parts == uploads[x].parts
        && r[x].createdAt == uploads[x].createdAt && (id != Some(x) ==> r[x] == uploads[x])
  {
  }

  lemma PutKeeps(sha: Bytes -> Digest, s: Store, h: Hash, blob: Bytes, base: nat, now: int, used: set<string>)
    requires StoreInv(sha, s) && s.uploads.Keys <= used
    ensures var t := Put(s, h, blob, sha(blob), base, now).0; StoreInv(sha, t) && Grows(s, t, used) && t.uploads.Keys == s.uploads.Keys
  {
    var t := Put(s, h, blob, sha(blob), base, now).0;
    SupersedeKeeps(s.uploads, CurrentUpload(s, h), now);
    if VersionOf(s, h) == base {
      assert RowReadable(sha, t, h);
      RowsStay(sha, s, t, {h});
    }
  }

  /** The claimed upload, whole and as checked. */
  lemma ClaimedUpload(sha: Bytes -> Digest, w: World, call: Call)
    requires Inv(sha, w) && call.CommitChecked? && CallInv(sha, w, call)
    requires IsOpen(w.store, call.h, call.id) && |w.store.uploads[call.id].parts| == call.req.parts
    ensures var parts := w.store.uploads[call.id].parts;
      Whole(parts) && Joined(parts, |parts|) == Concat(call.read) && forall n :: n in parts <==> 0 <= n < |call.read|
  {
    var parts := w.store.uploads[call.id].parts;
    CarriedAndCounted(parts, call.read);
    JoinedIsConcat(parts, call.read);
    forall n | 0 <= n < |parts| - 1 ensures |parts[n]| == PART_BYTES { assert parts[n] == call.read[n].1; }
  }

  function Claimed(s: Store, call: Call, now: int): map<string, Upload>
    requires call.CommitChecked? && call.id in s.uploads
  {
    s.uploads[call.id := s.uploads[call.id].(state := Committed, committedAt := Some(now))]
  }

  lemma InstallUploads(s: Store, call: Call, now: int, used: set<string>)
    requires UploadsOk(s) && OneOpen(s) && call.CommitChecked? && call.req.size >= 0 && call.req.parts >= 0
    requires Install(s, call, now).1.Done? && Whole(s.uploads[call.id].parts)
    ensures var t := Install(s, call, now).0;
      Grows(s, t, used) && t.uploads.Keys == s.uploads.Keys &&
      t.uploads[call.id].parts == s.uploads[call.id].parts && t.uploads[call.id].tokenHash == call.h && t.uploads[call.id].state.Committed? &&
      forall id :: Kept(s, t, id)
  {
    SupersedeKeeps(Claimed(s, call, now), CurrentUpload(s, call.h), now);
  }

  lemma InstallUploadsOk(s: Store, call: Call, now: int)
    requires UploadsOk(s) && OneOpen(s) && call.CommitChecked? && call.req.size >= 0 && call.req.parts >= 0
    requires Install(s, call, now).1.Done? && Whole(s.uploads[call.id].parts)
    ensures var t := Install(s, call, now).0; UploadsOk(t) && OneOpen(t)
  {
    SupersedeKeeps(Claimed(s, call, now), CurrentUpload(s, call.h), now);
  }

  lemma InstallKeeps(sha: Bytes -> Digest, w: World, call: Call, now: int)
    requires Inv(sha, w) && call.CommitChecked? && CallInv(sha, w, call)
    ensures call.req.size >= 0 && call.req.parts >= 0
    ensures var t := Install(w.store, call, now).0;
      StoreInv(sha, t) && Grows(w.store, t, w.used) && t.uploads.Keys == w.store.uploads.Keys
  {
    var s := w.store;
    var (t, res) := Install(s, call, now);
    if res.Done? {
      ClaimedUpload(sha, w, call);
      InstallUploads(s, call, now, w.used);
      InstallUploadsOk(s, call, now);
      assert RowReadable(sha, t, call.h);
      RowsStay(sha, s, t, {call.h});
    }
  }

  lemma CreateUploadsOk(s: Store, h: Hash, id: string, now: int)
    requires UploadsOk(s) && id !in s.uploads
    ensures UploadsOk(CreateUpload(s, h, id, now))
  {
  }

  lemma CreateGrows(s: Store, h: Hash, id: string, now: int, used: set<string>)
    requires s.uploads.Keys <= used && id !in used
    ensures var t := CreateUpload(s, h, id, now);
      Grows(s, t, used) && t.uploads.Keys == s.uploads.Keys + {id} && forall x :: Kept(s, t, x)
  {
  }

  lemma CreateLeavesOneOpen(s: Store, h: Hash, id: string, now: int)
    requires OneOpen(s)
    ensures OneOpen(CreateUpload(s, h, id, now))
  {
    var t := CreateUpload(s, h, id, now);
    forall x | x in t.uploads && t.uploads[x].state.Open? && x != id
      ensures x in s.uploads && s.uploads[x] == t.uploads[x] && t.uploads[x].tokenHash != h { }
  }

  /** No upload becomes open. */
  lemma OneOpenStays(s: Store, t: Store)
    requires OneOpen(s)
    requires forall id :: id in t.uploads && t.uploads[id].state.Open? ==>
      id in s.uploads && s.uploads[id].state.Open? && s.uploads[id].tokenHash == t.uploads[id].tokenHash
    ensures OneOpen(t)
  {
  }

  lemma CreateKeeps(sha: Bytes -> Digest, s: Store, h: Hash, id: string, now: int, used: set<string>)
    requires StoreInv(sha, s) && s.uploads.Keys <= used && id !in used
    ensures var t := CreateUpload(s, h, id, now); StoreInv(sha, t) && Grows(s, t, used) && t.uploads.Keys == s.uploads.Keys + {id}
  {
    CreateUploadsOk(s, h, id, now);
    CreateGrows(s, h, id, now, used);
    CreateLeavesOneOpen(s, h, id, now);
    RowsStay(sha, s, CreateUpload(s, h, id, now), {});
  }

  lemma PartUploadsOk(s: Store, h: Hash, id: string, n: nat, bytes: Bytes)
    requires UploadsOk(s) && 1 <= |bytes| <= PART_BYTES
    ensures UploadsOk(PutPart(s, h, id, n, bytes).0)
  {
  }

  lemma PartGrows(s: Store, h: Hash, id: string, n: nat, bytes: Bytes, used: set<string>)
    ensures var t := PutPart(s, h, id, n, bytes).0;
      Grows(s, t, used) && t.uploads.Keys == s.uploads.Keys && t.rows == s.rows &&
      forall x :: x in s.uploads && s.uploads[x].state.Committed? ==> t.uploads[x] == s.uploads[x]
  {
  }

  lemma PartKeeps(sha: Bytes -> Digest, s: Store, h: Hash, id: string, n: nat, bytes: Bytes, used: set<string>)
    requires StoreInv(sha, s) && s.uploads.Keys <= used && 1 <= |bytes| <= PART_BYTES
    ensures var t := PutPart(s, h, id, n, bytes).0; StoreInv(sha, t) && Grows(s, t, used) && t.uploads.Keys == s.uploads.Keys
  {
    PartUploadsOk(s, h, id, n, bytes);
    PartGrows(s, h, id, n, bytes, used);
    OneOpenStays(s, PutPart(s, h, id, n, bytes).0);
    CurrentUploadsStay(sha, s, PutPart(s, h, id, n, bytes).0);
  }

  /** Every current upload is untouched, so every row stays readable. */
  lemma CurrentUploadsStay(sha: Bytes -> Digest, s: Store, t: Store)
    requires RowsOk(sha, s) && t.rows == s.rows
    requires forall g :: g in s.rows && s.rows[g].uploadId.Some? && s.rows[g].uploadId.value in s.uploads &&
                         s.uploads[s.rows[g].uploadId.value].tokenHash == g && s.uploads[s.rows[g].uploadId.value].state.Committed? ==>
      s.rows[g].uploadId.value in t.uploads && t.uploads[s.rows[g].uploadId.value] == s.uploads[s.rows[g].uploadId.value]
    ensures RowsOk(sha, t)
  {
    forall g | g in t.rows && t.rows[g].uploadId.Some? ensures Kept(s, t, t.rows[g].uploadId.value) {
      assert RowReadable(sha, s, g);
    }
    RowsStay(sha, s, t, {});
  }

  lemma PruneUploadsOk(s: Store, t: Store, h: Hash, now: int)
    requires UploadsOk(s) && Pruned(s, t, h, now)
    ensures UploadsOk(t)
  {
  }

  lemma PruneGrows(s: Store, t: Store, h: Hash, now: int, used: set<string>)
    requires Pruned(s, t, h, now)
    ensures Grows(s, t, used) && t.uploads.Keys <= s.uploads.Keys
  {
  }

  lemma PruneKeeps(sha: Bytes -> Digest, s: Store, t: Store, h: Hash, now: int, used: set<string>)
    requires StoreInv(sha, s) && s.uploads.Keys <= used && Pruned(s, t, h, now)
    ensures StoreInv(sha, t) && Grows(s, t, used) && t.uploads.Keys <= s.uploads.Keys
  {
    PruneUploadsOk(s, t, h, now);
    PruneGrows(s, t, h, now, used);
    OneOpenStays(s, t);
    CurrentUploadsStay(sha, s, t);
  }

  lemma StepStore(sha: Bytes -> Digest, w: World, st: Step)
    requires Inv(sha, w) && Legal(w, st)
    ensures var v := Effect(sha, w, st);
      StoreInv(sha, v.store) && Grows(w.store, v.store, w.used) && v.store.uploads.Keys <= v.used && w.used <= v.used
  {
    match st
    case PutStep(h, blob, base, now) => PutKeeps(sha, w.store, h, blob, base, now, w.used);
    case CreateStep(h, id, now) => CreateKeeps(sha, w.store, h, id, now, w.used);
    case PartStep(h, id, n, bytes) => PartKeeps(sha, w.store, h, id, n, bytes, w.used);
    case PruneStep(h, now, left) => PruneKeeps(sha, w.store, left, h, now, w.used);
    case InstallStep(c, now) =>
      assert CallInv(sha, w, w.calls[c]);
      InstallKeeps(sha, w, w.calls[c], now);
    case _ =>
  }

  lemma StepKeeps(sha: Bytes -> Digest, w: World, st: Step)
    requires Inv(sha, w) && Legal(w, st)
    ensures Inv(sha, Effect(sha, w, st)) && Grows(w.store, Effect(sha, w, st).store, w.used)
  {
    var v := Effect(sha, w, st);
    StepStore(sha, w, st);
    forall c | c in v.calls ensures CallInv(sha, v, v.calls[c]) {
      if st.CheckStep? && st.c == c {
        CheckedCallKnows(sha, w, st);
      } else if c in w.calls && v.calls[c] == w.calls[c] {
        assert CallInv(sha, w, w.calls[c]);
      }
    }
  }

  lemma CheckedCallKnows(sha: Bytes -> Digest, w: World, st: Step)
    requires Inv(sha, w) && Legal(w, st) && st.CheckStep?
    ensures CallInv(sha, Effect(sha, w, st), Effect(sha, w, st).calls[st.c])
  {
    var call := w.calls[st.c];
    if IsOpen(w.store, call.h, call.id) && Good(st.read, call.req, sha) {
      var parts := w.store.uploads[call.id].parts;
      ListingCarries(parts, st.read);
      assert Sized(parts);
    }
  }

  // ---- runs ----------------------------------------------------------------

  ghost predicate Run(sha: Bytes -> Digest, ws: seq<World>, sts: seq<Step>) {
    && |ws| == |sts| + 1 && ws[0] == World(Store(map[], map[]), map[], {})
    && forall i :: 0 <= i < |sts| ==> StepAt(sha, ws, sts, i)
  }

  ghost predicate StepAt(sha: Bytes -> Digest, ws: seq<World>, sts: seq<Step>, i: int)
    requires |ws| == |sts| + 1 && 0 <= i < |sts|
  {
    Legal(ws[i], sts[i]) && ws[i + 1] == Effect(sha, ws[i], sts[i])
  }

  lemma {:induction false} RunKeeps(sha: Bytes -> Digest, ws: seq<World>, sts: seq<Step>, i: nat)
    requires Run(sha, ws, sts) && i < |ws|
    ensures Inv(sha, ws[i])
  {
    if i > 0 {
      RunKeeps(sha, ws, sts, i - 1);
      assert StepAt(sha, ws, sts, i - 1);
      StepKeeps(sha, ws[i - 1], sts[i - 1]);
    }
  }

  lemma OneStepGrows(sha: Bytes -> Digest, ws: seq<World>, sts: seq<Step>, i: nat)
    requires Run(sha, ws, sts) && i < |sts|
    ensures Grows(ws[i].store, ws[i + 1].store, ws[i].used) && ws[i].store.uploads.Keys <= ws[i].used <= ws[i + 1].used
  {
    RunKeeps(sha, ws, sts, i);
    assert StepAt(sha, ws, sts, i);
    StepKeeps(sha, ws[i], sts[i]);
  }

  /** Step i installs call c's upload as a new version. */
  predicate InstallsAt(ws: seq<World>, sts: seq<Step>, i: nat)
    requires |ws| == |sts| + 1 && i < |sts|
  {
    sts[i].InstallStep? && sts[i].c in ws[i].calls && ws[i].calls[sts[i].c].CommitChecked? &&
    var call := ws[i].calls[sts[i].c];
    call.req.size >= 0 && call.req.parts >= 0 && Install(ws[i].store, call, sts[i].now).1.Done?
  }

  /**
   * When a commit succeeds, the parts installed are exactly the parts whose
   * order, sizes and digest were checked, whatever ran between the two steps.
   */
  lemma InstalledPartsWereChecked(sha: Bytes -> Digest, ws: seq<World>, sts: seq<Step>, i: nat)
    requires Run(sha, ws, sts) && i < |sts| && InstallsAt(ws, sts, i)
    ensures var call := ws[i].calls[sts[i].c]; var s := ws[i + 1].store;
      && Good(call.read, call.req, sha)
      && call.id in s.uploads && s.uploads[call.id].state.Committed?
      && (forall n :: n in s.uploads[call.id].parts <==> 0 <= n < |call.read|)
      && (forall n :: 0 <= n < |call.read| ==> s.uploads[call.id].parts[n] == call.read[n].1)
      && call.h in s.rows
      && s.rows[call.h] == Blob([], Some(call.id), call.req.parts, call.req.base + 1, call.req.sha256, call.req.size)
      && call.req.parts == CeilDiv(call.req.size, PART_BYTES)
  {
    RunKeeps(sha, ws, sts, i);
    assert StepAt(sha, ws, sts, i);
    var call := ws[i].calls[sts[i].c];
    assert CallInv(sha, ws[i], call);
    ClaimedUpload(sha, ws[i], call);
    SupersedeKeeps(ws[i].store.uploads[call.id := ws[i].store.uploads[call.id].(state := Committed, committedAt := Some(sts[i].now))],
                   CurrentUpload(ws[i].store, call.h), sts[i].now);
    PartCountForced(call.read, call.req, sha, 0);
  }

  /** In every state a version stored in parts can be read part by part, and the parts join to the committed bytes. */
  lemma StoredVersionsReadable(sha: Bytes -> Digest, ws: seq<World>, sts: seq<Step>, i: nat, h: Hash)
    requires Run(sha, ws, sts) && i < |ws| && h in ws[i].store.rows && ws[i].store.rows[h].uploadId.Some?
    ensures var s, row := ws[i].store, ws[i].store.rows[h]; var id := row.uploadId.value;
      && (forall n :: 0 <= n < row.parts ==> GetPart(s, h, id, n).Some? && 1 <= |GetPart(s, h, id, n).value| <= PART_BYTES)
      && (forall n: nat :: n >= row.parts ==> GetPart(s, h, id, n).None?)
      && exists list: seq<(nat, Bytes)> :: |list| == row.parts && (forall n :: 0 <= n < row.parts ==> list[n] == (n, GetPart(s, h, id, n).value)) &&
           |Concat(list)| == row.size && sha(Concat(list)) == row.sha256
  {
    RunKeeps(sha, ws, sts, i);
    var s, row := ws[i].store, ws[i].store.rows[h];
    assert RowReadable(sha, s, h);
    var parts := s.uploads[row.uploadId.value].parts;
    var list := seq(row.parts, n requires 0 <= n < row.parts => (n, parts[n]));
    JoinedIsConcat(parts, list);
  }

  /** Each account has at most one open upload, in every state. */
  lemma AtMostOneOpen(sha: Bytes -> Digest, ws: seq<World>, sts: seq<Step>, i: nat, h: Hash, a: string, b: string)
    requires Run(sha, ws, sts) && i < |ws| && IsOpen(ws[i].store, h, a) && IsOpen(ws[i].store, h, b)
    ensures a == b
  {
    RunKeeps(sha, ws, sts, i);
  }

  /** A committed upload's parts never change: later reads return those bytes or nothing. */
  lemma {:induction false} CommittedBytesStay(sha: Bytes -> Digest, ws: seq<World>, sts: seq<Step>, i: nat, j: nat, id: string)
    requires Run(sha, ws, sts) && i <= j < |ws|
    requires id in ws[i].store.uploads && ws[i].store.uploads[id].state.Committed?
    ensures id in ws[j].used
    ensures id in ws[j].store.uploads ==>
      ws[j].store.uploads[id].state.Committed? && ws[j].store.uploads[id].parts == ws[i].store.uploads[id].parts &&
      ws[j].store.uploads[id].tokenHash == ws[i].store.uploads[id].tokenHash
    ensures forall h, n :: GetPart(ws[j].store, h, id, n) == GetPart(ws[i].store, h, id, n) || GetPart(ws[j].store, h, id, n).None?
    decreases j
  {
    if i == j {
      RunKeeps(sha, ws, sts, i);
    } else {
      CommittedBytesStay(sha, ws, sts, i, j - 1, id);
      OneStepGrows(sha, ws, sts, j - 1);
    }
  }

  // ---- versions ------------------------------------------------------------

  /** Step i is a put or a commit of the account that succeeds on this base. */
  predicate SucceedsAt(sha: Bytes -> Digest, ws: seq<World>, sts: seq<Step>, i: nat, h: Hash, base: nat)
    requires |ws| == |sts| + 1 && i < |sts|
  {
    (sts[i].PutStep? && sts[i].h == h && sts[i].base == base && Put(ws[i].store, h, sts[i].blob, sha(sts[i].blob), base, sts[i].now).1.ok) ||
    (InstallsAt(ws, sts, i) && ws[i].calls[sts[i].c].h == h && ws[i].calls[sts[i].c].req.base == base)
  }

  lemma SuccessMovesVersion(sha: Bytes -> Digest, ws: seq<World>, sts: seq<Step>, i: nat, h: Hash, base: nat)
    requires Run(sha, ws, sts) && i < |sts| && SucceedsAt(sha, ws, sts, i, h, base)
    ensures VersionOf(ws[i].store, h) == base && VersionOf(ws[i + 1].store, h) == base + 1
  {
    assert StepAt(sha, ws, sts, i);
  }

  lemma {:induction false} VersionsGrow(sha: Bytes -> Digest, ws: seq<World>, sts: seq<Step>, i: nat, j: nat, h: Hash)
    requires Run(sha, ws, sts) && i <= j < |ws|
    ensures VersionOf(ws[i].store, h) <= VersionOf(ws[j].store, h)
    decreases j
  {
    if i < j {
      VersionsGrow(sha, ws, sts, i, j - 1, h);
      OneStepGrows(sha, ws, sts, j - 1);
    }
  }

  /** Each base version is the base of at most one successful put or commit. */
  lemma EachBaseOnce(sha: Bytes -> Digest, ws: seq<World>, sts: seq<Step>, i: nat, j: nat, h: Hash, base: nat)
    requires Run(sha, ws, sts) && i < |sts| && j < |sts|
    requires SucceedsAt(sha, ws, sts, i, h, base) && SucceedsAt(sha, ws, sts, j, h, base)
    ensures i == j
  {
    SuccessMovesVersion(sha, ws, sts, i, h, base);
    SuccessMovesVersion(sha, ws, sts, j, h, base);
    if i < j { VersionsGrow(sha, ws, sts, i + 1, j, h); }
    if j < i { VersionsGrow(sha, ws, sts, j + 1, i, h); }
  }

  /** A version moves only by such a success, and by one. */
  lemma OnlySuccessMovesVersion(sha: Bytes -> Digest, ws: seq<World>, sts: seq<Step>, i: nat, h: Hash)
    requires Run(sha, ws, sts) && i < |sts|
    ensures VersionOf(ws[i + 1].store, h) == VersionOf(ws[i].store, h) + (if SucceedsAt(sha, ws, sts, i, h, VersionOf(ws[i].store, h)) then 1 else 0)
  {
    assert StepAt(sha, ws, sts, i);
    RunKeeps(sha, ws, sts, i);
    if sts[i].InstallStep? { assert CallInv(sha, ws[i], ws[i].calls[sts[i].c]); }
  }
}
