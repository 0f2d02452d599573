/**
 * The sync server's store as a value (ADR 0078): one blob row per account, and
 * uploads that are opened, written part by part, committed as the next version
 * and later superseded and pruned.
 */
module SyncStore {
  import opened Options

  type Hash = string
  type Digest = string
  newtype Byte = x: int | 0 <= x < 256
  type Bytes = seq<Byte>

  const PART_BYTES: nat := 3 * 1024 * 1024
  const OPEN_UPLOAD_TTL_MS := 60 * 60 * 1000
  const SUPERSEDED_READABLE_MS := 10 * 60 * 1000
  const SUPERSEDED_KEEP_MAX: nat := 3

  datatype Blob = Blob(blob: Bytes, uploadId: Option<string>, parts: nat, version: nat, sha256: Digest, size: nat)
  datatype UploadState = Open | Committed | Replaced
  datatype Upload = Upload(
    tokenHash: Hash, state: UploadState, createdAt: int,
    committedAt: Option<int>, supersededAt: Option<int>, parts: map<nat, Bytes>)

  datatype Store = Store(rows: map<Hash, Blob>, uploads: map<string, Upload>)

  datatype PutResult = PutResult(ok: bool, version: nat)
  datatype CommitResult = Done(version: nat) | Conflict(version: nat) | WasReplaced

  function VersionOf(s: Store, h: Hash): nat { if h in s.rows then s.rows[h].version else 0 }

  function CurrentUpload(s: Store, h: Hash): Option<string> { if h in s.rows then s.rows[h].uploadId else None }

  /** Starts the readable window of the upload a new version replaces. */
  function Superseded(uploads: map<string, Upload>, id: Option<string>, now: int): map<string, Upload> {
    if id.Some? && id.value in uploads then uploads[id.value := uploads[id.value].(supersededAt := Some(now))] else uploads
  }

  function Put(s: Store, h: Hash, blob: Bytes, sha256: Digest, base: nat, now: int): (Store, PutResult) {
    if VersionOf(s, h) != base then (s, PutResult(false, VersionOf(s, h)))
    else (Store(s.rows[h := Blob(blob, None, 0, base + 1, sha256, |blob|)], Superseded(s.uploads, CurrentUpload(s, h), now)),
          PutResult(true, base + 1))
  }

  /** Every open upload of the account becomes replaced. */
  function AllReplaced(uploads: map<string, Upload>, h: Hash): map<string, Upload> {
    map id | id in uploads ::
      if uploads[id].tokenHash == h && uploads[id].state.Open? then uploads[id].(state := Replaced) else uploads[id]
  }

  function CreateUpload(s: Store, h: Hash, id: string, now: int): Store {
    s.(uploads := AllReplaced(s.uploads, h)[id := Upload(h, Open, now, None, None, map[])])
  }

  predicate IsOpen(s: Store, h: Hash, id: string) {
    id in s.uploads && s.uploads[id].tokenHash == h && s.uploads[id].state.Open?
  }

  /** Write-once: a part already written keeps its first bytes. */
  function PutPart(s: Store, h: Hash, id: string, n: nat, bytes: Bytes): (Store, bool) {
    if !IsOpen(s, h, id) then (s, false)
    else
      var u := s.uploads[id];
      (if n in u.parts then s else s.(uploads := s.uploads[id := u.(parts := u.parts[n := bytes])]), true)
  }

  function Commit(s: Store, h: Hash, id: string, base: nat, sha256: Digest, size: nat, parts: nat, now: int): (Store, CommitResult) {
    if !IsOpen(s, h, id) || |s.uploads[id].parts| != parts then (s, WasReplaced)
    else if VersionOf(s, h) != base then (s, Conflict(VersionOf(s, h)))
    else
      var claimed := s.uploads[id := s.uploads[id].(state := Committed, committedAt := Some(now))];
      (Store(s.rows[h := Blob([], Some(id), parts, base + 1, sha256, size)], Superseded(claimed, CurrentUpload(s, h), now)),
       Done(base + 1))
  }

  function GetPart(s: Store, h: Hash, id: string, n: nat): Option<Bytes> {
    if id in s.uploads && s.uploads[id].tokenHash == h && s.uploads[id].state.Committed? && n in s.uploads[id].parts
    then Some(s.uploads[id].parts[n]) else None
  }

  // ---- pruning -------------------------------------------------------------

  /** A claimed upload that was never superseded ages from its claim. */
  function Since(u: Upload): int {
    if u.supersededAt.Some? then u.supersededAt.value else if u.committedAt.Some? then u.committedAt.value else 0
  }

  predicate Mine(s: Store, h: Hash, id: string) {
    id in s.uploads && s.uploads[id].tokenHash == h && CurrentUpload(s, h) != Some(id)
  }

  predicate Expired(u: Upload, now: int) {
    u.state.Replaced? || (u.state.Open? && now - u.createdAt > OPEN_UPLOAD_TTL_MS)
  }

  predicate TooOld(u: Upload, now: int) { now - Since(u) > SUPERSEDED_READABLE_MS }

  function SupersededIds(s: Store, h: Hash): set<string> {
    set id | id in s.uploads && Mine(s, h, id) && s.uploads[id].state.Committed?
  }

  /**
   * What pruning leaves: the current upload and every other account's stay;
   * replaced and over-age open uploads go; of the superseded ones at most
   * SUPERSEDED_KEEP_MAX stay, newest first, and only readable ones. Which of two
   * uploads superseded at the same instant comes first is left open.
   */
  predicate Pruned(s: Store, t: Store, h: Hash, now: int) {
    var kept := SupersededIds(s, h) * t.uploads.Keys;
    && t.rows == s.rows
    && (forall id :: id in t.uploads ==> id in s.uploads && t.uploads[id] == s.uploads[id])
    && (forall id :: id in s.uploads && !Mine(s, h, id) ==> id in t.uploads)
    && (forall id :: id in s.uploads && Mine(s, h, id) && !s.uploads[id].state.Committed? ==>
          (id in t.uploads <==> !Expired(s.uploads[id], now)))
    && |kept| <= SUPERSEDED_KEEP_MAX
    && (forall id :: id in kept ==> !TooOld(s.uploads[id], now))
    && (forall id :: id in SupersededIds(s, h) - kept ==> |kept| == SUPERSEDED_KEEP_MAX || TooOld(s.uploads[id], now))
    && (forall id, x :: id in kept && x in SupersededIds(s, h) - kept ==> Since(s.uploads[x]) <= Since(s.uploads[id]))
  }
}
