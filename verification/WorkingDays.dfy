/**
 How many days a leave request costs (app/modules/leaves/service.py, calculate_working_days).
 Days are counted in hundredths, so half a day is 50.
 */
module WorkingDays {
  import opened Wrappers
  import opened Calendar

  datatype HalfDay = WholeDays | FirstHalf | SecondHalf

  const FULL_DAY := 100
  const HALF_DAY := 50

  predicate IsWorkingDay(d: int, holidays: set<Date>) {
    Weekday(d) < 5 && d !in holidays
  }

  // The number of working days d with s <= d < e.
  function Count(s: int, e: int, holidays: set<Date>): nat
    decreases e - s
  {
    if e <= s then 0
    else Count(s, e - 1, holidays) + if IsWorkingDay(e - 1, holidays) then 1 else 0
  }

  // What a request costs, or None when the loop of the source steps past `date.max`.
  function Cost(start: Date, end: Date, half: HalfDay, holidays: set<Date>): Option<int> {
    if start <= end == MAX_ORDINAL then None
    else
      var days := Count(start, end + 1, holidays) * FULL_DAY;
      Some(if half != WholeDays && days > 0 then days - HALF_DAY else days)
  }

  method CalculateWorkingDays(start: Date, end: Date, half: HalfDay, holidays: set<Date>)
    returns (total: Option<int>)
    ensures total == Cost(start, end, half, holidays)
  {
    var current: int := start;
    var days := 0;
    while current <= end
      invariant start <= end ==> start <= current <= end + 1
      invariant end < start ==> current == start
      invariant current <= MAX_ORDINAL
      invariant days == Count(start, current, holidays) * FULL_DAY
    {
      if Weekday(current) < 5 && current !in holidays {
        days := days + FULL_DAY;
      }
      if current == MAX_ORDINAL {
        return None;
      }
      current := current + 1;
    }
    if half != WholeDays && days > 0 {
      days := if HALF_DAY < days - HALF_DAY then days - HALF_DAY else HALF_DAY;
    }
    return Some(days);
  }

  // --- What the count means ---------------------------------------------------

  ghost function WorkingDates(s: int, e: int, holidays: set<Date>): set<int> {
    set d | s <= d < e && IsWorkingDay(d, holidays)
  }

  // The loop counts the working dates of the interval, each once.
  lemma {:induction false} CountIsCardinality(s: int, e: int, holidays: set<Date>)
    ensures Count(s, e, holidays) == |WorkingDates(s, e, holidays)|
    decreases e - s
  {
    if e <= s {
      assert WorkingDates(s, e, holidays) == {};
    } else {
      CountIsCardinality(s, e - 1, holidays);
      var before := WorkingDates(s, e - 1, holidays);
      assert WorkingDates(s, e, holidays) ==
             if IsWorkingDay(e - 1, holidays) then before + {e - 1} else before;
    }
  }

  // Splitting a period anywhere loses and gains nothing.
  lemma {:induction false} CountAdditive(s: int, m: int, e: int, holidays: set<Date>)
    requires s <= m <= e
    ensures Count(s, e, holidays) == Count(s, m, holidays) + Count(m, e, holidays)
    decreases e - m
  {
    if m < e {
      CountAdditive(s, m, e - 1, holidays);
    }
  }

  function Min(a: int, b: int): int { if a < b then a else b }

  function Max(a: int, b: int): int { if a < b then b else a }

  // The weekdays among the r < 7 days that start on weekday w.
  function PartialWeek(w: int, r: int): int {
    Min(r, Max(0, 5 - w)) + Max(0, r - (7 - w))
  }

  lemma WeekdayAfter(s: int, q: nat, r: nat)
    requires r < 7
    ensures var w := Weekday(s);
            Weekday(s + 7 * q + r) == if w + r < 7 then w + r else w + r - 7
  {
  }

  // Whether the r-th day of a week that starts on weekday w is a weekday.
  function InWeek(w: int, r: int): int {
    if r < 5 - w || 7 - w <= r < 12 - w then 1 else 0
  }

  // One more day after q weeks and r days.
  lemma OneMoreDay(s: int, w: int, q: nat, r: nat, e: int)
    requires r < 7 && e == s + 7 * q + r && w == Weekday(s)
    ensures 0 <= w < 7
    ensures Count(s, e + 1, {}) == Count(s, e, {}) + InWeek(w, r)
  {
    WeekdayAfter(s, q, r);
    assert IsWorkingDay(e, {}) <==> InWeek(w, r) == 1;
    assert e + 1 - 1 == e;
  }

  // The weekdays of q weeks and r days that start on weekday w.
  function Weekdays(w: int, q: nat, r: nat): int {
    5 * q + PartialWeek(w, r)
  }

  lemma WeekdaysStep(w: int, q: nat, r: nat)
    requires 0 <= w < 7 && r < 7
    ensures Weekdays(w, q, r) + InWeek(w, r) == if r < 6 then Weekdays(w, q, r + 1) else Weekdays(w, q + 1, 0)
    ensures Weekdays(w, 0, 0) == 0
  {
  }

  lemma NextDay(s: int, w: int, q: nat, r: nat, e: int)
    requires r < 7 && e == s + 7 * q + r && w == Weekday(s)
    requires Count(s, e, {}) == Weekdays(w, q, r)
    ensures Count(s, e + 1, {}) == if r < 6 then Weekdays(w, q, r + 1) else Weekdays(w, q + 1, 0)
  {
    OneMoreDay(s, w, q, r, e);
    WeekdaysStep(w, q, r);
  }

  lemma {:induction false} WeeksAndDays(s: int, w: int, q: nat, r: nat, e: int)
    requires r < 7 && e == s + 7 * q + r && w == Weekday(s)
    ensures Count(s, e, {}) == Weekdays(w, q, r)
    decreases e - s
  {
    if s < e {
      var q1, r1 := if r > 0 then q else q - 1, if r > 0 then r - 1 else 6;
      WeeksAndDays(s, w, q1, r1, e - 1);
      NextDay(s, w, q1, r1, e - 1);
    } else {
      WeekdaysStep(w, 0, 0);
    }
  }

  function FullWeeks(n: nat): nat { n / 7 }

  function OddDays(n: nat): nat { n % 7 }

  lemma WeeksAndOddDays(n: nat)
    ensures n == 7 * FullWeeks(n) + OddDays(n) && OddDays(n) < 7
  {
  }

  lemma WeekdaysClosedForm(s: int, w: int, n: nat, q: nat, r: nat)
    requires n == 7 * q + r && r < 7 && w == Weekday(s)
    ensures Count(s, s + n, {}) == 5 * q + PartialWeek(w, r)
  {
    WeeksAndDays(s, w, q, r, s + n);
  }

  ghost function WeekdayHolidays(s: int, e: int, holidays: set<Date>): set<int> {
    set d | s <= d < e && Weekday(d) < 5 && d in holidays
  }

  // No loop is needed: whole weeks count 5, the rest depends only on the weekday of the
  // first date, and every holiday that falls on a weekday takes one day off.
  lemma {:induction false} CountClosedForm(s: int, n: nat, holidays: set<Date>)
    ensures Count(s, s + n, holidays) ==
            5 * FullWeeks(n) + PartialWeek(Weekday(s), OddDays(n)) - |WeekdayHolidays(s, s + n, holidays)|
  {
    WeeksAndOddDays(n);
    WeekdaysClosedForm(s, Weekday(s), n, FullWeeks(n), OddDays(n));
    HolidaysSubtract(s, s + n, holidays);
  }

  lemma OneMoreHoliday(s: int, e: int, holidays: set<Date>)
    requires s < e
    ensures |WeekdayHolidays(s, e, holidays)| ==
            |WeekdayHolidays(s, e - 1, holidays)| + if Weekday(e - 1) < 5 && e - 1 in holidays then 1 else 0
  {
    var before := WeekdayHolidays(s, e - 1, holidays);
    var hit := Weekday(e - 1) < 5 && e - 1 in holidays;
    assert WeekdayHolidays(s, e, holidays) == if hit then before + {e - 1} else before;
  }

  lemma {:induction false} HolidaysSubtract(s: int, e: int, holidays: set<Date>)
    ensures Count(s, e, {}) == Count(s, e, holidays) + |WeekdayHolidays(s, e, holidays)|
    decreases e - s
  {
    if e <= s {
      assert WeekdayHolidays(s, e, holidays) == {};
    } else {
      HolidaysSubtract(s, e - 1, holidays);
      OneMoreHoliday(s, e, holidays);
    }
  }

  // A cost is a non-negative multiple of half a day, zero exactly when the period holds no
  // working day; the half-day form takes off exactly half a day, so the floor of half a
  // day the source puts under it never binds.
  lemma CostShape(start: Date, end: Date, half: HalfDay, holidays: set<Date>)
    ensures Cost(start, end, half, holidays).None? <==> start <= end == MAX_ORDINAL
    ensures var c := Cost(start, end, half, holidays);
            c.Some? ==>
              && 0 <= c.value
              && c.value % HALF_DAY == 0
              && (c.value == 0 <==> WorkingDates(start, end + 1, holidays) == {})
              && (half != WholeDays && c.value > 0 ==>
                    HALF_DAY <= c.value &&
                    Cost(start, end, WholeDays, holidays) == Some(c.value + HALF_DAY))
  {
    CountIsCardinality(start, end + 1, holidays);
  }

  // --- The holidays of one year -----------------------------------------------

  function OfYear(holidays: set<Date>, y: int): set<Date> {
    set h | h in holidays && Year(h) == y
  }

  lemma SubsetSize(a: set<int>, b: set<int>)
    requires a <= b
    ensures |a| <= |b| && (|a| == |b| <==> a == b)
  {
    assert b == a + (b - a);
  }

  // Fewer holidays never make a period cheaper, and it costs the same exactly when none of
  // the dropped holidays falls on a weekday of the period.
  lemma FewerHolidaysCostMore(s: int, e: int, some: set<Date>, all: set<Date>)
    requires some <= all
    ensures Count(s, e, all) <= Count(s, e, some)
    ensures Count(s, e, some) == Count(s, e, all) <==> WeekdayHolidays(s, e, all) <= some
  {
    HolidaysSubtract(s, e, some);
    HolidaysSubtract(s, e, all);
    SubsetSize(WeekdayHolidays(s, e, some), WeekdayHolidays(s, e, all));
    assert WeekdayHolidays(s, e, all) <= some <==> WeekdayHolidays(s, e, some) == WeekdayHolidays(s, e, all);
  }

  // Only the holidays of the start year are loaded: the cost is never below the cost under
  // the whole calendar, and equals it exactly when every weekday holiday of the period is in
  // the start year, as is always so for a period within one year.
  lemma StartYearHolidays(start: Date, end: Date, half: HalfDay, holidays: set<Date>)
    requires start <= end < MAX_ORDINAL
    ensures var some := OfYear(holidays, Year(start));
            var charged := Cost(start, end, half, some).value;
            var full := Cost(start, end, half, holidays).value;
            && full <= charged
            && (charged == full <==> WeekdayHolidays(start, end + 1, holidays) <= some)
            && (Year(start) == Year(end) ==> charged == full)
  {
    var some := OfYear(holidays, Year(start));
    FewerHolidaysCostMore(start, end + 1, some, holidays);
    if Year(start) == Year(end) {
      forall d | d in WeekdayHolidays(start, end + 1, holidays)
        ensures d in some
      {
        YearMonotone(start, d);
        YearMonotone(d, end);
      }
    }
  }

  // It happens: from Monday 31 December of year 1 to Tuesday 1 January, a holiday, two days
  // are charged although only one is a working day.
  lemma NewYearIsCharged()
    ensures var start, newYear := 365, 366;
            var holidays: set<Date> := {newYear};
            && Year(start) == 1 && Year(newYear) == 2
            && Cost(start, newYear, WholeDays, OfYear(holidays, Year(start))) == Some(2 * FULL_DAY)
            && Cost(start, newYear, WholeDays, holidays) == Some(FULL_DAY)
  {
    assert OfYear({366}, 1) == {};
    TwoDays(365, {});
    TwoDays(365, {366});
  }

  lemma TwoDays(s: int, holidays: set<Date>)
    ensures Count(s, s + 2, holidays) ==
            (if IsWorkingDay(s, holidays) then 1 else 0) + if IsWorkingDay(s + 1, holidays) then 1 else 0
  {
    assert Count(s, s, holidays) == 0;
    assert Count(s, s + 1, holidays) == Count(s, s, holidays) + if IsWorkingDay(s, holidays) then 1 else 0;
  }
}
