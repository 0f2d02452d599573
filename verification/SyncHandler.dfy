/** The commit check of the sync handler: the loop over the parts read, and what passing it means. */
module SyncHandler {
  import opened Options
  import opened SyncStore

  const NKV_HEADER_LENGTH: nat := 52
  /** "NKV1" in ASCII. */
  const NKV_MAGIC: Bytes := [78, 75, 86, 49]

  datatype CommitReq = CommitReq(base: nat, parts: int, size: int, sha256: Digest)
  datatype Problem = PartsMissing | ShortPart | WrongSize | NotAVault | WrongDigest

  function Concat(list: seq<(nat, Bytes)>): Bytes {
    if list == [] then [] else Concat(list[..|list| - 1]) + list[|list| - 1].1
  }

  predicate HasVaultMagic(b: Bytes) { |b| >= 4 && b[..4] == NKV_MAGIC }

  predicate Contiguous(list: seq<(nat, Bytes)>) { forall i :: 0 <= i < |list| ==> list[i].0 == i }

  predicate FullButLast(list: seq<(nat, Bytes)>) { forall i :: 0 <= i < |list| - 1 ==> |list[i].1| == PART_BYTES }

  predicate LooksLikeVault(list: seq<(nat, Bytes)>) {
    |list| > 0 && |list[0].1| >= NKV_HEADER_LENGTH && HasVaultMagic(list[0].1)
  }

  /** Contiguous parts, full-size except the last, a vault blob of the stated size and digest. */
  predicate Good(list: seq<(nat, Bytes)>, req: CommitReq, sha: Bytes -> Digest) {
    && |list| == req.parts && Contiguous(list) && FullButLast(list)
    && |Concat(list)| == req.size && LooksLikeVault(list) && sha(Concat(list)) == req.sha256
  }

  /** `checkParts`: the running total and the running hash over the parts in turn. */
  method CheckParts(list: seq<(nat, Bytes)>, req: CommitReq, sha: Bytes -> Digest) returns (problem: Option<Problem>)
    ensures problem.None? <==> Good(list, req, sha)
    ensures problem == Some(PartsMissing) ==> |list| != req.parts || !Contiguous(list)
    ensures problem == Some(ShortPart) ==> !FullButLast(list)
    ensures problem == Some(WrongSize) ==> |list| == req.parts && Contiguous(list) && FullButLast(list) && |Concat(list)| != req.size
    ensures problem == Some(NotAVault) ==> |Concat(list)| == req.size && !LooksLikeVault(list)
    ensures problem == Some(WrongDigest) ==> LooksLikeVault(list) && sha(Concat(list)) != req.sha256
  {
    if |list| != req.parts { return Some(PartsMissing); }
    var total, hashed: Bytes := 0, [];
    for i := 0 to |list|
      invariant total == |hashed| && hashed == Concat(list[..i])
      invariant forall j :: 0 <= j < i ==> list[j].0 == j && (j < |list| - 1 ==> |list[j].1| == PART_BYTES)
    {
      var (n, bytes) := list[i];
      if n != i { return Some(PartsMissing); }
      if i < |list| - 1 && |bytes| != PART_BYTES { return Some(ShortPart); }
      total := total + |bytes|;
      hashed := hashed + bytes;
      assert list[..i + 1][..i] == list[..i];
    }
    assert list[..|list|] == list;
    if total != req.size { return Some(WrongSize); }
    if |list| == 0 || |list[0].1| < NKV_HEADER_LENGTH || !HasVaultMagic(list[0].1) { return Some(NotAVault); }
    if sha(hashed) != req.sha256 { return Some(WrongDigest); }
    problem := None;
  }

  // ---- the part count is forced --------------------------------------------

  function CeilDiv(n: nat, d: nat): nat
    requires d > 0
  {
    (n + d - 1) / d
  }

  function MaxParts(capBytes: nat): nat { CeilDiv(capBytes, PART_BYTES) }

  lemma {:induction false} FullPartsAddUp(list: seq<(nat, Bytes)>)
    requires forall i :: 0 <= i < |list| ==> |list[i].1| == PART_BYTES
    ensures |Concat(list)| == |list| * PART_BYTES
  {
    if list != [] { FullPartsAddUp(list[..|list| - 1]); }
  }

  /**
   * An accepted commit's part count is the size divided by PART_BYTES, rounded
   * up, when every part holds 1 to PART_BYTES bytes; so a size within the cap
   * fits the part limit.
   */
  lemma PartCountForced(list: seq<(nat, Bytes)>, req: CommitReq, sha: Bytes -> Digest, cap: nat)
    requires Good(list, req, sha)
    requires forall i :: 0 <= i < |list| ==> 1 <= |list[i].1| <= PART_BYTES
    ensures req.parts == CeilDiv(req.size, PART_BYTES)
    ensures req.size <= cap ==> req.parts <= MaxParts(cap)
  {
    var n := |list| - 1;
    FullPartsAddUp(list[..n]);
    var last := |list[n].1|;
    assert req.size == n * PART_BYTES + last;
    assert (req.size + PART_BYTES - 1) / PART_BYTES == n + 1 by {
      assert req.size + PART_BYTES - 1 == (n + 1) * PART_BYTES + (last - 1);
    }
    if req.size <= cap { DivMonotone(req.size + PART_BYTES - 1, cap + PART_BYTES - 1); }
  }

  lemma DivMonotone(a: nat, b: nat)
    requires a <= b
    ensures a / PART_BYTES <= b / PART_BYTES
  {
  }
}
