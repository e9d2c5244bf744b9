/** Calendar dates of the proleptic Gregorian calendar, as parsed from the
    `YYYY-mm-dd` first column of a data file, with the day numbering that
    `pd.date_range` steps through and the `%Y%m%d` stamp of strftime. */
module Dates {
  import opened Text

  datatype Date = Date(year: int, month: int, day: int)

  predicate Leap(y: int) { y % 4 == 0 && (y % 100 != 0 || y % 400 == 0) }

  function DaysInMonth(y: int, m: int): int
    requires 1 <= m <= 12
  {
    if m == 2 then (if Leap(y) then 29 else 28)
    else if m == 4 || m == 6 || m == 9 || m == 11 then 30
    else 31
  }

  predicate Valid(d: Date)
  {
    d.year >= 1 && 1 <= d.month <= 12 && 1 <= d.day <= DaysInMonth(d.year, d.month)
  }

  function YearDays(y: int): int { if Leap(y) then 366 else 365 }

  /** Days in the months of year `y` before month `m` (`m == 13`: the
      whole year). */
  function DaysBeforeMonth(y: int, m: int): int
    requires 1 <= m <= 13
  {
    [0, 31, 59, 90, 120, 151, 181, 212, 243, 273, 304, 334, 365][m - 1] + (if m > 2 && Leap(y) then 1 else 0)
  }

  lemma MonthStep(y: int, m: int)
    requires 1 <= m <= 12
    ensures DaysBeforeMonth(y, m + 1) == DaysBeforeMonth(y, m) + DaysInMonth(y, m)
    ensures DaysBeforeMonth(y, 13) == YearDays(y)
  {
  }

  /** Days in the years before year `y`, counted from 0001-01-01. */
  function DaysBeforeYear(y: int): nat
    requires y >= 1
  {
    if y == 1 then 0 else DaysBeforeYear(y - 1) + YearDays(y - 1)
  }

  /** The day number of a date: 0 for 0001-01-01, one more per day. */
  function DayNumber(d: Date): int
    requires Valid(d)
  {
    DaysBeforeYear(d.year) + DaysBeforeMonth(d.year, d.month) + d.day - 1
  }

  /** The following calendar day. */
  function Next(d: Date): Date
    requires Valid(d)
  {
    if d.day < DaysInMonth(d.year, d.month) then Date(d.year, d.month, d.day + 1)
    else if d.month < 12 then Date(d.year, d.month + 1, 1)
    else Date(d.year + 1, 1, 1)
  }

  /** Stepping one calendar day on moves the day number by one. */
  lemma NextDayNumber(d: Date)
    requires Valid(d)
    ensures Valid(Next(d)) && DayNumber(Next(d)) == DayNumber(d) + 1
  {
    if d.day == DaysInMonth(d.year, d.month) {
      MonthStep(d.year, d.month);
      if d.month == 12 {
        assert DaysBeforeYear(d.year + 1) == DaysBeforeYear(d.year) + YearDays(d.year);
      }
    }
  }

  lemma {:induction false} YearsAscend(a: int, b: int)
    requires 1 <= a < b
    ensures DaysBeforeYear(a) + YearDays(a) <= DaysBeforeYear(b)
    decreases b - a
  {
    if a + 1 < b {
      YearsAscend(a + 1, b);
    }
  }

  lemma MonthsAscend(y: int, a: int, b: int)
    requires 1 <= a < b <= 12
    ensures DaysBeforeMonth(y, a) + DaysInMonth(y, a) <= DaysBeforeMonth(y, b)
  {
  }

  lemma WithinYear(d: Date)
    requires Valid(d)
    ensures DaysBeforeYear(d.year) <= DayNumber(d) < DaysBeforeYear(d.year) + YearDays(d.year)
  {
    MonthStep(d.year, d.month);
    if d.month < 12 {
      MonthsAscend(d.year, d.month, 12);
      MonthStep(d.year, 12);
    }
  }

  /** Different dates have different day numbers. */
  lemma DayNumberInjective(a: Date, b: Date)
    requires Valid(a) && Valid(b) && DayNumber(a) == DayNumber(b)
    ensures a == b
  {
    WithinYear(a);
    WithinYear(b);
    if a.year < b.year {
      YearsAscend(a.year, b.year);
    } else if b.year < a.year {
      YearsAscend(b.year, a.year);
    }
    assert a.year == b.year;
    if a.month < b.month {
      MonthsAscend(a.year, a.month, b.month);
    } else if b.month < a.month {
      MonthsAscend(a.year, b.month, a.month);
    }
  }

  /** `pd.date_range(start, end)`: every day from `start` to `end`. */
  function DateRange(start: Date, end: Date): (r: seq<Date>)
    requires Valid(start) && Valid(end)
    ensures |r| == if DayNumber(end) < DayNumber(start) then 0 else DayNumber(end) - DayNumber(start) + 1
    ensures forall k :: 0 <= k < |r| ==> Valid(r[k]) && DayNumber(r[k]) == DayNumber(start) + k
    decreases DayNumber(end) - DayNumber(start)
  {
    if DayNumber(end) < DayNumber(start) then []
    else if DayNumber(end) == DayNumber(start) then [start]
    else
      NextDayNumber(start);
      [start] + DateRange(Next(start), end)
  }

  /** A valid date lies in the range exactly when its day number does,
      and then at the offset of its day number. */
  lemma InDateRange(start: Date, end: Date, d: Date)
    requires Valid(start) && Valid(end) && Valid(d)
    ensures var r := DateRange(start, end);
      (d in r <==> DayNumber(start) <= DayNumber(d) <= DayNumber(end)) &&
      (d in r ==> r[DayNumber(d) - DayNumber(start)] == d)
  {
    var r := DateRange(start, end);
    if DayNumber(start) <= DayNumber(d) <= DayNumber(end) {
      var k := DayNumber(d) - DayNumber(start);
      DayNumberInjective(r[k], d);
    }
  }

  // ---------------------------------------------------------------------
  // strftime('%Y%m%d').

  function Stamp(d: Date): string
    requires Valid(d)
  {
    ZeroPad(d.year as nat, 4) + ZeroPad(d.month as nat, 2) + ZeroPad(d.day as nat, 2)
  }

  function Pow10(w: nat): nat { if w == 0 then 1 else 10 * Pow10(w - 1) }

  lemma {:induction false} NatToStringLength(n: nat, w: nat)
    requires 1 <= w && n < Pow10(w)
    ensures |NatToString(n)| <= w
    decreases n
  {
    if n >= 10 {
      assert Pow10(1) == 10;
      NatToStringLength(n / 10, w - 1);
    }
  }

  lemma {:induction false} ParseNatZeros(s: string)
    requires forall i :: 0 <= i < |s| ==> s[i] == '0'
    ensures ParseNat(s) == 0
  {
    if s != [] {
      ParseNatZeros(s[..|s| - 1]);
    }
  }

  lemma {:induction false} ParseNatLeadingZeros(z: string, s: string)
    requires forall i :: 0 <= i < |z| ==> z[i] == '0'
    requires forall i :: 0 <= i < |s| ==> IsDigit(s[i])
    ensures ParseNat(z + s) == ParseNat(s)
    decreases |s|
  {
    if s == [] {
      assert z + s == z;
      ParseNatZeros(z);
    } else {
      var p := s[..|s| - 1];
      ParseNatLeadingZeros(z, p);
      assert (z + s)[..|z + s| - 1] == z + p;
    }
  }

  lemma ParseZeroPad(n: nat, w: nat)
    requires 1 <= w && n < Pow10(w)
    ensures |ZeroPad(n, w)| == w && ParseNat(ZeroPad(n, w)) == n
  {
    NatToStringLength(n, w);
    ParseNatToString(n);
    var d := NatToString(n);
    if |d| < w {
      ParseNatLeadingZeros(Repeat('0', w - |d|), d);
    }
  }

  /** The stamp of a four-digit-year date is eight digits from which the
      year, month and day read back. */
  lemma StampReadBack(d: Date)
    requires Valid(d) && d.year < 10000
    ensures var s := Stamp(d);
      |s| == 8 &&
      ParseNat(s[..4]) == d.year && ParseNat(s[4..6]) == d.month && ParseNat(s[6..]) == d.day
  {
    assert Pow10(2) == 100 && Pow10(4) == 10000;
    ParseZeroPad(d.year as nat, 4);
    ParseZeroPad(d.month as nat, 2);
    ParseZeroPad(d.day as nat, 2);
    var y, m, dd := ZeroPad(d.year as nat, 4), ZeroPad(d.month as nat, 2), ZeroPad(d.day as nat, 2);
    var s := Stamp(d);
    assert s == y + m + dd;
    assert s[..4] == y && s[4..6] == m && s[6..] == dd;
  }

  /** Different four-digit-year dates have different stamps. */
  lemma StampInjective(a: Date, b: Date)
    requires Valid(a) && a.year < 10000 && Valid(b) && b.year < 10000
    requires Stamp(a) == Stamp(b)
    ensures a == b
  {
    StampReadBack(a);
    StampReadBack(b);
  }
}
