/** The day a pass is stamped with: the first ten characters of the save time in ISO form. */
module MilestoneDates {
  import opened Text
  import opened MilestoneLine
  import opened MilestoneIds
  import opened MilestonePlan

  /** The years a JavaScript time can have. */
  const FIRST_YEAR := -271821
  const LAST_YEAR := 275760

  /** What `Date.parse` makes of a save time, in UTC. */
  datatype SaveTime = NoTime | On(year: int, month: nat, day: nat)

  predicate OnCalendar(t: SaveTime) {
    t.On? && FIRST_YEAR <= t.year <= LAST_YEAR && 1 <= t.month <= 12 && 1 <= t.day <= DaysIn(t.year, t.month)
  }

  /** The last `width` digits of n. */
  function Digits(n: nat, width: nat): (s: string)
    ensures |s| == width && forall i :: 0 <= i < width ==> IsDigit(s[i])
  {
    if width == 0 then "" else Digits(n / 10, width - 1) + [DigitChar(n % 10)]
  }

  /** Years outside 0 to 9999 are written with a sign and six digits. */
  function IsoYear(year: int): string {
    if 0 <= year <= 9999 then Digits(year, 4) else if year < 0 then "-" + Digits(-year, 6) else "+" + Digits(year, 6)
  }

  function IsoDay(t: SaveTime): string
    requires t.On?
  {
    IsoYear(t.year) + "-" + Digits(t.month, 2) + "-" + Digits(t.day, 2)
  }

  /** `passDate` on a time that parses. */
  function PassDate(t: SaveTime): (s: string)
    requires t.On?
    ensures |s| == 10
  {
    IsoDay(t)[..10]
  }

  lemma TwoDigits(n: nat)
    requires n <= 99
    ensures var s := Digits(n, 2); 10 * Digit(s[0]) + Digit(s[1]) == n
  {
    assert Digits(n, 2) == Digits(n / 10, 1) + [DigitChar(n % 10)];
    assert Digits(n / 10, 1) == Digits(n / 10 / 10, 0) + [DigitChar(n / 10 % 10)];
  }

  lemma FourDigits(n: nat)
    requires n <= 9999
    ensures var s := Digits(n, 4); 1000 * Digit(s[0]) + 100 * Digit(s[1]) + 10 * Digit(s[2]) + Digit(s[3]) == n
  {
    TwoDigits(n / 10 / 10);
    assert Digits(n, 4) == Digits(n / 10, 3) + [DigitChar(n % 10)];
    assert Digits(n / 10, 3) == Digits(n / 10 / 10, 2) + [DigitChar(n / 10 % 10)];
  }

  /** A stamped day is a day of the calendar exactly when the year has four digits and no sign. */
  lemma PassDateIff(t: SaveTime)
    requires OnCalendar(t)
    ensures IsUtcDate(PassDate(t)) <==> 0 <= t.year <= 9999
  {
    var d := PassDate(t);
    if 0 <= t.year <= 9999 {
      FourDigits(t.year);
      TwoDigits(t.month);
      TwoDigits(t.day);
      assert d == IsoDay(t);
      assert d[..4] == Digits(t.year, 4) && d[5..7] == Digits(t.month, 2) && d[8..] == Digits(t.day, 2);
      DayOfDigits(d, t);
    } else {
      assert d[0] == '-' || d[0] == '+';
    }
  }

  /** A day in ten digits and dashes is on the calendar when its numbers are. */
  lemma DayOfDigits(d: string, t: SaveTime)
    requires OnCalendar(t) && DateShape(d)
    requires 1000 * Digit(d[0]) + 100 * Digit(d[1]) + 10 * Digit(d[2]) + Digit(d[3]) == t.year
    requires 10 * Digit(d[5]) + Digit(d[6]) == t.month && 10 * Digit(d[8]) + Digit(d[9]) == t.day
    ensures IsUtcDate(d)
  {
  }

  /** A day past the year 9999. */
  lemma YearTenThousand()
    ensures PassDate(On(10000, 1, 1)) == "+010000-01" && !IsUtcDate(PassDate(On(10000, 1, 1)))
  {
    SixDigitsOfTenThousand();
    assert Digits(1, 2) == Digits(0, 1) + ['1'] && Digits(0, 1) == Digits(0, 0) + ['0'];
    assert IsoDay(On(10000, 1, 1)) == "+010000-01-01";
    PassDateIff(On(10000, 1, 1));
  }

  lemma SixDigitsOfTenThousand()
    ensures Digits(10000, 6) == "010000"
  {
    assert Digits(0, 1) == Digits(0, 0) + ['0'];
    assert Digits(1, 2) == Digits(0, 1) + ['1'];
    assert Digits(10, 3) == Digits(1, 2) + ['0'];
    assert Digits(100, 4) == Digits(10, 3) + ['0'];
    assert Digits(1000, 5) == Digits(100, 4) + ['0'];
    assert Digits(10000, 6) == Digits(1000, 5) + ['0'];
  }
}
