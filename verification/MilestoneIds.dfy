/** Milestone ids as numbers: M1 to M999. */
module MilestoneIds {
  import opened Text
  import opened MilestoneLine

  const MAX_NUMBER := 999

  function DigitChar(d: nat): char
    requires d < 10
  {
    ('0' as int + d) as char
  }

  /** `String(n)`. */
  function Decimal(n: nat): string {
    if n < 10 then [DigitChar(n)] else Decimal(n / 10) + [DigitChar(n % 10)]
  }

  /** `Number(s)` on a string of digits; other characters count as they come. */
  function Value(s: string): int {
    if s == "" then 0 else 10 * Value(s[..|s| - 1]) + (s[|s| - 1] as int - '0' as int)
  }

  function IdOf(n: nat): string { "M" + Decimal(n) }

  /** `Number(id.slice(1))`. */
  function NumberOf(id: string): int { if id == "" then 0 else Value(id[1..]) }

  lemma {:induction false} ValueOfDecimal(n: nat)
    ensures Value(Decimal(n)) == n
  {
    if n >= 10 {
      ValueOfDecimal(n / 10);
      var s := Decimal(n);
      assert s[..|s| - 1] == Decimal(n / 10);
    } else {
      assert Decimal(n)[..0] == "";
    }
  }

  lemma NumberOfId(n: nat)
    ensures NumberOf(IdOf(n)) == n
  {
    assert IdOf(n)[1..] == Decimal(n);
    ValueOfDecimal(n);
  }

  lemma {:induction false} DecimalDigits(n: nat)
    ensures Decimal(n) != "" && forall i :: 0 <= i < |Decimal(n)| ==> IsDigit(Decimal(n)[i])
    ensures n > 0 ==> Decimal(n)[0] != '0'
  {
    if n >= 10 { DecimalDigits(n / 10); }
  }

  lemma DecimalLength(n: nat)
    ensures |Decimal(n)| == if n < 10 then 1 else 1 + |Decimal(n / 10)|
  {
  }

  lemma {:induction false} DecimalWidth(n: nat)
    ensures |Decimal(n)| <= 3 <==> n <= 999
  {
    DecimalLength(n);
    DecimalLength(n / 10);
    DecimalLength(n / 10 / 10);
  }

  /** The written numbers that are ids are exactly 1 to 999. */
  lemma IdOfValid(n: nat)
    requires n >= 1
    ensures IsId(IdOf(n)) <==> n <= MAX_NUMBER
  {
    DecimalDigits(n);
    DecimalWidth(n);
    var id := IdOf(n);
    assert forall i :: 1 <= i < |id| ==> id[i] == Decimal(n)[i - 1];
  }

  /** The greatest number among these ids, or 0. */
  function MaxNumber(ids: seq<string>): (n: int)
    ensures n >= 0 && forall i :: 0 <= i < |ids| ==> NumberOf(ids[i]) <= n
  {
    if ids == [] then 0
    else
      var m, k := MaxNumber(ids[..|ids| - 1]), NumberOf(ids[|ids| - 1]);
      if m < k then k else m
  }
}
