/** Civil dates, days of the year, and the two-digit years identifiers are dated with. */
module Calendar {
  import opened Wrappers
  import opened Bytes

  datatype CivilDate = CivilDate(year: nat, month: nat, day: nat) {
    predicate Valid() {
      year <= 9999 && 1 <= month <= 12 && 1 <= day <= DaysInMonth(year, month)
    }
  }

  /** The dates of the proleptic Gregorian calendar from year 0 to year 9999. */
  type Date = d: CivilDate | d.Valid() witness CivilDate(2000, 1, 1)

  predicate IsLeap(year: nat) {
    year % 4 == 0 && (year % 100 != 0 || year % 400 == 0)
  }

  function DaysInMonth(year: nat, month: nat): nat
    requires 1 <= month <= 12
  {
    if month == 2 then (if IsLeap(year) then 29 else 28)
    else if month in {4, 6, 9, 11} then 30
    else 31
  }

  function DaysInYear(year: nat): nat {
    if IsLeap(year) then 366 else 365
  }

  /** Days of the year that come before a month. */
  function DaysBefore(year: nat, month: nat): nat
    requires 1 <= month <= 13
  {
    if month == 1 then 0 else DaysBefore(year, month - 1) + DaysInMonth(year, month - 1)
  }

  /** Day of the year, from 1. */
  function OrdinalDay(d: Date): nat {
    DaysBefore(d.year, d.month) + d.day
  }

  lemma {:induction false} DaysBeforeIsMonotonic(year: nat, a: nat, b: nat)
    requires 1 <= a < b <= 13
    ensures DaysBefore(year, a) + DaysInMonth(year, a) <= DaysBefore(year, b)
    decreases b - a
  {
    if a + 1 < b {
      DaysBeforeIsMonotonic(year, a, b - 1);
    }
  }

  lemma DaysBeforeNextYear(year: nat)
    ensures DaysBefore(year, 13) == DaysInYear(year)
  {
    var february := DaysInMonth(year, 2);
    assert DaysBefore(year, 2) == 31;
    assert DaysBefore(year, 4) == 62 + february;
    assert DaysBefore(year, 6) == DaysBefore(year, 4) + 61;
    assert DaysBefore(year, 8) == DaysBefore(year, 6) + 61;
    assert DaysBefore(year, 10) == DaysBefore(year, 8) + 61;
    assert DaysBefore(year, 12) == DaysBefore(year, 10) + 61;
  }

  /** The day of the year without counting months: from March on, months alternate so that a
      ninth of 275 days a month falls on the right day, less the days that February lacks. */
  lemma OrdinalDayClosedForm(d: Date)
    ensures OrdinalDay(d) ==
            275 * d.month / 9 - (d.month + 9) / 12 * (if IsLeap(d.year) then 1 else 2) + d.day - 30
  {
    var m := d.month;
    assert DaysBefore(d.year, 1) == 0 && DaysBefore(d.year, 2) == 31;
    assert DaysBefore(d.year, 3) == 31 + DaysInMonth(d.year, 2);
    if m > 3 {
      assert DaysBefore(d.year, 4) == DaysBefore(d.year, 3) + 31 && DaysBefore(d.year, 5) == DaysBefore(d.year, 4) + 30;
      assert DaysBefore(d.year, 6) == DaysBefore(d.year, 5) + 31 && DaysBefore(d.year, 7) == DaysBefore(d.year, 6) + 30;
      assert DaysBefore(d.year, 8) == DaysBefore(d.year, 7) + 31 && DaysBefore(d.year, 9) == DaysBefore(d.year, 8) + 31;
      assert DaysBefore(d.year, 10) == DaysBefore(d.year, 9) + 30;
      assert DaysBefore(d.year, 11) == DaysBefore(d.year, 10) + 31;
      assert DaysBefore(d.year, 12) == DaysBefore(d.year, 11) + 30;
    }
  }

  /** Days of the years before one, from year 0. */
  function DaysBeforeYear(year: nat): nat {
    if year == 0 then 0 else DaysBeforeYear(year - 1) + DaysInYear(year - 1)
  }

  lemma NextMultiple(n: nat, k: nat)
    requires k in {4, 100, 400}
    ensures (n + k) / k == (n + (k - 1)) / k + if n % k == 0 then 1 else 0
  {
    var q, r := n / k, n % k;
    if k == 4 {
      assert n == 4 * q + r;
    } else if k == 100 {
      assert n == 100 * q + r;
    } else {
      assert n == 400 * q + r;
    }
  }

  lemma MultiplesOf400(n: nat)
    ensures n % 400 == 0 ==> n % 100 == 0
    ensures n % 100 == 0 ==> n % 4 == 0
  {
    if n % 400 == 0 {
      assert n == 100 * (4 * (n / 400));
    }
    if n % 100 == 0 {
      assert n == 4 * (25 * (n / 100));
    }
  }

  /** Years are leap as the Gregorian calendar counts them: every fourth, but for the centuries that
      400 does not divide. */
  lemma {:induction false} YearsClosedForm(year: nat)
    ensures DaysBeforeYear(year) == 365 * year + (year + 3) / 4 - (year + 99) / 100 + (year + 399) / 400
  {
    if year > 0 {
      var n := year - 1;
      YearsClosedForm(n);
      MultiplesOf400(n);
      NextMultiple(n, 4);
      NextMultiple(n, 100);
      NextMultiple(n, 400);
    }
  }

  lemma OrdinalDayRange(d: Date)
    ensures 1 <= OrdinalDay(d) <= DaysInYear(d.year)
  {
    DaysBeforeIsMonotonic(d.year, d.month, 13);
    DaysBeforeNextYear(d.year);
  }

  /** Within a year, the day of the year determines the date. */
  lemma OrdinalDayIsInjective(a: Date, b: Date)
    requires a.year == b.year && OrdinalDay(a) == OrdinalDay(b)
    ensures a == b
  {
    if a.month < b.month {
      DaysBeforeIsMonotonic(a.year, a.month, b.month);
    } else if b.month < a.month {
      DaysBeforeIsMonotonic(a.year, b.month, a.month);
    }
  }

  /** Every legal day of a year is the day of some date: the one this returns. */
  function DateOfOrdinal(year: nat, ordinal: nat, month: nat := 1): (d: Date)
    requires year <= 9999 && 1 <= month <= 12
    requires DaysBefore(year, month) < ordinal <= DaysInYear(year)
    ensures d.year == year && OrdinalDay(d) == ordinal
    decreases 12 - month
  {
    DaysBeforeNextYear(year);
    if ordinal <= DaysBefore(year, month + 1)
    then CivilDate(year, month, ordinal - DaysBefore(year, month))
    else DateOfOrdinal(year, ordinal, month + 1)
  }

  // ---------------------------------------------------------------------------
  // Two-digit years
  // ---------------------------------------------------------------------------

  /** The year a two-digit year is parsed as. */
  function FoldedYear(yy: nat): nat
    requires yy < 100
  {
    if yy < 69 then 2000 + yy else 1900 + yy
  }

  lemma LeapYearsFold(year: nat)
    requires IsLeap(year)
    ensures (year % 100) % 4 == 0
  {
    var century, yy := year / 100, year % 100;
    assert year == 4 * (year / 4);
    assert year == 100 * century + yy;
    assert yy == 4 * (year / 4 - 25 * century);
  }

  /** Folding a year never makes its last day illegal. */
  lemma FoldingKeepsDays(year: nat)
    ensures DaysInYear(year) <= DaysInYear(FoldedYear(year % 100))
  {
    if IsLeap(year) {
      LeapYearsFold(year);
    }
  }

  /** The parsed year and the archive's reading 2000 + yy have the same days. */
  lemma ArchiveReadingHasTheSameDays(yy: nat)
    requires yy < 100
    ensures DaysInYear(2000 + yy) == DaysInYear(FoldedYear(yy))
  {
  }

  /** `%y%j`: two digits of year, then three digits of day. */
  function YearAndDay(d: Date): (s: bytes)
    ensures |s| == 5 && AllDigits(s)
    ensures NumberOf(s[..2]) == d.year % 100
    ensures NumberOf(s[2..]) == OrdinalDay(d)
  {
    OrdinalDayRange(d);
    assert Power10(2) == 100 && Power10(3) == 1000;
    var s := Padded(d.year % 100, 2) + Padded(OrdinalDay(d), 3);
    assert s[..2] == Padded(d.year % 100, 2) && s[2..] == Padded(OrdinalDay(d), 3);
    s
  }

  lemma SameYearAndDayIff(a: Date, b: Date)
    ensures YearAndDay(a) == YearAndDay(b) <==> a.year % 100 == b.year % 100 && OrdinalDay(a) == OrdinalDay(b)
  {
    var sa, sb := YearAndDay(a), YearAndDay(b);
    assert sa == sa[..2] + sa[2..] && sb == sb[..2] + sb[2..];
    SameWidthSameNumber(sa[..2], sb[..2]);
    SameWidthSameNumber(sa[2..], sb[2..]);
  }

  /** `%Y%m%d`: the key serial numbers are counted under. */
  function DateKey(d: Date): (s: bytes)
    ensures |s| == 8 && AllDigits(s)
    ensures NumberOf(s[..4]) == d.year && NumberOf(s[4..6]) == d.month && NumberOf(s[6..]) == d.day
  {
    assert Power10(4) == 10000 && Power10(2) == 100;
    var s := Padded(d.year, 4) + Padded(d.month, 2) + Padded(d.day, 2);
    assert s[..4] == Padded(d.year, 4) && s[4..6] == Padded(d.month, 2) && s[6..] == Padded(d.day, 2);
    s
  }

  /** Distinct dates never share a serial counter. */
  lemma DateKeyIsInjective(a: Date, b: Date)
    ensures DateKey(a) == DateKey(b) <==> a == b
  {
  }

  /** Parses `%y%j`; refuses anything but five digits, and a day the folded year has not. */
  function ParseYearAndDay(s: bytes): Option<Date>
    requires |s| == 5
  {
    if !AllDigits(s) then None
    else
      var yy := NumberOf(s[..2]);
      var ordinal := NumberOf(s[2..]);
      TwoDigits(s[..2]);
      if 1 <= ordinal <= DaysInYear(FoldedYear(yy)) then Some(DateOfOrdinal(FoldedYear(yy), ordinal)) else None
  }

  /** The year and day written for a date can always be parsed: folding loses no day. */
  lemma YearAndDayParses(d: Date)
    ensures ParseYearAndDay(YearAndDay(d)).Some?
  {
    OrdinalDayRange(d);
    FoldingKeepsDays(d.year);
  }

  lemma TwoDigits(s: bytes)
    requires |s| == 2 && AllDigits(s)
    ensures NumberOf(s) < 100
  {
    assert s[..1][..0] == [];
    assert NumberOf(s[..1]) == s[0] - DIGIT_ZERO by { assert s[..1][0] == s[0]; }
  }
}
