/**
 The proleptic Gregorian calendar as Python's `datetime.date` implements it.  A date is
 its ordinal (1 January of year 1 is 1), so `+ timedelta(days=1)` is `+ 1` and comparing
 dates is comparing ordinals.  Year, month and weekday are functions of the ordinal.
 */
module Calendar {
  // The ordinal of 31 December 9999, `date.max`.
  const MAX_ORDINAL := 3652059

  type Date = d: int | 1 <= d <= MAX_ORDINAL witness 1

  // Days before 1 January of year y.
  function DaysBeforeYear(y: int): int
    requires 1 <= y
  {
    var p := y - 1;
    365 * p + p / 4 - p / 100 + p / 400
  }

  // The year of ordinal d, searched upwards from y.
  function YearFrom(y: int, d: int): (r: int)
    requires 1 <= y && DaysBeforeYear(y) < d
    ensures y <= r && DaysBeforeYear(r) < d <= DaysBeforeYear(r + 1)
    decreases d - DaysBeforeYear(y)
  {
    if d <= DaysBeforeYear(y + 1) then y else YearFrom(y + 1, d)
  }

  function Year(d: Date): (y: int)
    ensures 1 <= y && DaysBeforeYear(y) < d <= DaysBeforeYear(y + 1)
  {
    YearFrom(1, d)
  }

  // The month that holds the n-th day of a year.
  function MonthOfDay(n: int, leap: bool): int {
    var l := if leap then 1 else 0;
    if n <= 31 then 1 else if n <= 59 + l then 2 else if n <= 90 + l then 3
    else if n <= 120 + l then 4 else if n <= 151 + l then 5 else if n <= 181 + l then 6
    else if n <= 212 + l then 7 else if n <= 243 + l then 8 else if n <= 273 + l then 9
    else if n <= 304 + l then 10 else if n <= 334 + l then 11 else 12
  }

  function Month(d: Date): (m: int)
    ensures 1 <= m <= 12
  {
    var y := Year(d);
    MonthOfDay(d - DaysBeforeYear(y), DaysBeforeYear(y + 1) - DaysBeforeYear(y) == 366)
  }

  // 0 is Monday, 5 Saturday and 6 Sunday.
  function Weekday(d: int): int {
    (d + 6) % 7
  }

  // A year is an interval of dates: the year of a date never decreases with the date.
  lemma YearMonotone(a: Date, b: Date)
    requires a <= b
    ensures Year(a) <= Year(b)
  {
  }

  // --- Civil dates ------------------------------------------------------------

  predicate Leap(y: int) { y % 4 == 0 && (y % 100 != 0 || y % 400 == 0) }

  function DaysInMonth(y: int, m: int): int {
    if m == 2 then (if Leap(y) then 29 else 28) else if m in {4, 6, 9, 11} then 30 else 31
  }

  // Days before month m of year y, in that year.
  function DaysBeforeMonth(y: int, m: nat): int {
    if m <= 1 then 0 else DaysBeforeMonth(y, m - 1) + DaysInMonth(y, m - 1)
  }

  // The ordinal of day n of month m of year y, as `date.toordinal` has it.
  function Ordinal(y: int, m: nat, n: int): int
    requires 1 <= y
  {
    DaysBeforeYear(y) + DaysBeforeMonth(y, m) + n
  }

  lemma QuotientSteps(y: int, n: int)
    requires 1 <= y && n in {4, 100, 400}
    ensures y / n - (y - 1) / n == if y % n == 0 then 1 else 0
  {
  }

  lemma YearLength(y: int)
    requires 1 <= y
    ensures DaysBeforeYear(y + 1) - DaysBeforeYear(y) == if Leap(y) then 366 else 365
  {
    QuotientSteps(y, 4);
    QuotientSteps(y, 100);
    QuotientSteps(y, 400);
    CenturiesAreFourths(y);
  }

  lemma Multiple(n: int, q: int)
    requires n in {4, 100}
    ensures (n * q) % n == 0
  {
  }

  lemma CenturiesAreFourths(y: int)
    ensures y % 400 == 0 ==> y % 100 == 0
    ensures y % 100 == 0 ==> y % 4 == 0
  {
    if y % 400 == 0 {
      assert y == 100 * (4 * (y / 400));
      Multiple(100, 4 * (y / 400));
    }
    if y % 100 == 0 {
      assert y == 4 * (25 * (y / 100));
      Multiple(4, 25 * (y / 100));
    }
  }

  lemma {:induction false} YearsGrow(a: int, b: int)
    requires 1 <= a <= b
    ensures DaysBeforeYear(a) <= DaysBeforeYear(b)
    decreases b - a
  {
    if a < b {
      YearsGrow(a, b - 1);
      YearLength(b - 1);
    }
  }

  lemma YearIs(d: Date, y: int)
    requires 1 <= y && DaysBeforeYear(y) < d <= DaysBeforeYear(y + 1)
    ensures Year(d) == y
  {
    if Year(d) < y {
      YearsGrow(Year(d) + 1, y);
    } else if y < Year(d) {
      YearsGrow(y + 1, Year(d));
    }
  }

  lemma MonthTable(y: int)
    ensures var l := if Leap(y) then 1 else 0;
            && DaysBeforeMonth(y, 1) == 0 && DaysBeforeMonth(y, 2) == 31
            && DaysBeforeMonth(y, 3) == 59 + l && DaysBeforeMonth(y, 4) == 90 + l
            && DaysBeforeMonth(y, 5) == 120 + l && DaysBeforeMonth(y, 6) == 151 + l
            && DaysBeforeMonth(y, 7) == 181 + l && DaysBeforeMonth(y, 8) == 212 + l
            && DaysBeforeMonth(y, 9) == 243 + l && DaysBeforeMonth(y, 10) == 273 + l
            && DaysBeforeMonth(y, 11) == 304 + l && DaysBeforeMonth(y, 12) == 334 + l
  {
    var t := DaysBeforeMonth(y, 3);
    assert DaysBeforeMonth(y, 5) == t + 61;
    assert DaysBeforeMonth(y, 7) == t + 122;
    assert DaysBeforeMonth(y, 9) == t + 184;
    assert DaysBeforeMonth(y, 11) == t + 245;
  }

  // Every civil date has its year and month back.
  lemma CivilDate(y: int, m: nat, n: int)
    requires 1 <= y <= 9999 && 1 <= m <= 12 && 1 <= n <= DaysInMonth(y, m)
    ensures 1 <= Ordinal(y, m, n) <= MAX_ORDINAL
    ensures Year(Ordinal(y, m, n)) == y && Month(Ordinal(y, m, n)) == m
  {
    MonthTable(y);
    YearLength(y);
    YearsGrow(1, y);
    YearsGrow(y + 1, 10000);
    YearIs(Ordinal(y, m, n), y);
  }

  // And every date is a civil date of its year and month.
  lemma DateIsCivil(d: Date)
    ensures Year(d) <= 9999
    ensures var n := d - DaysBeforeYear(Year(d)) - DaysBeforeMonth(Year(d), Month(d));
            1 <= n <= DaysInMonth(Year(d), Month(d)) && Ordinal(Year(d), Month(d), n) == d
  {
    MonthTable(Year(d));
    YearLength(Year(d));
    if Year(d) > 9999 {
      YearsGrow(10000, Year(d));
    }
  }

  // 1 January 2024 was a Monday, and weeks have seven days.
  lemma WeeksFromAMonday(d: int)
    ensures Weekday(d) == (d - Ordinal(2024, 1, 1)) % 7
  {
    assert Ordinal(2024, 1, 1) == 738886;
  }
}
