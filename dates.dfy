/** Calendar dates as the JavaScript `Date` object exposes them in local time:
    a proleptic Gregorian year, a month numbered 0 (January) to 11 and a day
    of the month, plus the running day number that orders dates and gives the
    day of the week. Only what the month grid needs is modelled: normalisation
    of `setDate` and of the `Date(year, month, day)` constructor for days
    within one month either side. */
module Dates {

  predicate IsLeapYear(y: int) {
    y % 4 == 0 && (y % 100 != 0 || y % 400 == 0)
  }

  function DaysInMonth(y: int, m: int): (r: nat)
    requires 0 <= m < 12
    ensures 28 <= r <= 31
  {
    if m == 1 then (if IsLeapYear(y) then 29 else 28)
    else if m == 3 || m == 5 || m == 8 || m == 10 then 30
    else 31
  }

  function YearLength(y: int): nat {
    if IsLeapYear(y) then 366 else 365
  }

  /** Days of year `y` before the first of month `m`. */
  function DaysBeforeMonth(y: int, m: int): nat
    requires 0 <= m <= 12
  {
    if m == 0 then 0 else DaysBeforeMonth(y, m - 1) + DaysInMonth(y, m - 1)
  }

  /** The twelve months fill the year. */
  lemma MonthsFillYear(y: int)
    ensures DaysBeforeMonth(y, 12) == YearLength(y)
  {
    assert DaysBeforeMonth(y, 1) == DaysBeforeMonth(y, 0) + DaysInMonth(y, 0);
    assert DaysBeforeMonth(y, 2) == DaysBeforeMonth(y, 1) + DaysInMonth(y, 1);
    assert DaysBeforeMonth(y, 3) == DaysBeforeMonth(y, 2) + DaysInMonth(y, 2);
    assert DaysBeforeMonth(y, 4) == DaysBeforeMonth(y, 3) + DaysInMonth(y, 3);
    assert DaysBeforeMonth(y, 5) == DaysBeforeMonth(y, 4) + DaysInMonth(y, 4);
    assert DaysBeforeMonth(y, 6) == DaysBeforeMonth(y, 5) + DaysInMonth(y, 5);
    assert DaysBeforeMonth(y, 7) == DaysBeforeMonth(y, 6) + DaysInMonth(y, 6);
    assert DaysBeforeMonth(y, 8) == DaysBeforeMonth(y, 7) + DaysInMonth(y, 7);
    assert DaysBeforeMonth(y, 9) == DaysBeforeMonth(y, 8) + DaysInMonth(y, 8);
    assert DaysBeforeMonth(y, 10) == DaysBeforeMonth(y, 9) + DaysInMonth(y, 9);
    assert DaysBeforeMonth(y, 11) == DaysBeforeMonth(y, 10) + DaysInMonth(y, 10);
    assert DaysBeforeMonth(y, 12) == DaysBeforeMonth(y, 11) + DaysInMonth(y, 11);
  }

  lemma {:induction false} MonthsMonotone(y: int, m1: int, m2: int)
    requires 0 <= m1 < m2 <= 12
    ensures DaysBeforeMonth(y, m1) + DaysInMonth(y, m1) <= DaysBeforeMonth(y, m2)
    decreases m2 - m1
  {
    if m1 + 1 < m2 {
      MonthsMonotone(y, m1 + 1, m2);
    }
  }

  /** Days in the years `a` up to but excluding `b`. */
  function YearsSpan(a: int, b: int): nat
    requires a <= b
    decreases b - a
  {
    if a == b then 0 else YearsSpan(a, b - 1) + YearLength(b - 1)
  }

  /** A span can be split off at its first year as well as at its last. */
  lemma {:induction false} YearsSpanFront(a: int, b: int)
    requires a < b
    ensures YearsSpan(a, b) == YearLength(a) + YearsSpan(a + 1, b)
    decreases b - a
  {
    if a + 1 < b {
      YearsSpanFront(a, b - 1);
    }
  }

  /** Days from 1 January 1970 to 1 January of year `y` (negative before). */
  function DaysBeforeYear(y: int): int {
    if y >= 1970 then YearsSpan(1970, y) else -(YearsSpan(y, 1970) as int)
  }

  lemma YearStep(y: int)
    ensures DaysBeforeYear(y + 1) == DaysBeforeYear(y) + YearLength(y)
  {
    if y < 1970 {
      YearsSpanFront(y, 1970);
      assert YearsSpan(y + 1, 1970) == DaysBeforeYear(y + 1) * -1;
    }
  }

  lemma {:induction false} YearsMonotone(a: int, b: int)
    requires a < b
    ensures DaysBeforeYear(a) + YearLength(a) <= DaysBeforeYear(b)
    decreases b - a
  {
    YearStep(a);
    if a + 1 < b {
      YearsMonotone(a + 1, b);
    }
  }

  datatype Date = Date(year: int, month: int, day: int)

  /** A date the `Date` object can denote: a month 0 to 11 and a day that
      exists in that month. */
  predicate ValidDate(d: Date) {
    0 <= d.month < 12 && 1 <= d.day <= DaysInMonth(d.year, d.month)
  }

  /** Days since 1 January 1970. */
  function DayNumber(d: Date): int
    requires 0 <= d.month < 12
  {
    DaysBeforeYear(d.year) + DaysBeforeMonth(d.year, d.month) + d.day - 1
  }

  /** Day of the week, 0 for Sunday to 6 for Saturday (`getDay`);
      1 January 1970 was a Thursday. */
  function Weekday(d: Date): (r: nat)
    requires 0 <= d.month < 12
    ensures r < 7
    ensures d == Date(1970, 0, 1) ==> r == 4
  {
    (DayNumber(d) + 4) % 7
  }

  lemma DayInYear(d: Date)
    requires ValidDate(d)
    ensures 0 <= DaysBeforeMonth(d.year, d.month) + d.day - 1 < YearLength(d.year)
  {
    MonthsMonotone(d.year, d.month, 12);
    MonthsFillYear(d.year);
  }

  /** Each day number names one valid date. */
  lemma DayNumberInjective(a: Date, b: Date)
    requires ValidDate(a) && ValidDate(b) && DayNumber(a) == DayNumber(b)
    ensures a == b
  {
    DayInYear(a);
    DayInYear(b);
    if a.year < b.year {
      YearsMonotone(a.year, b.year);
      assert false;
    } else if b.year < a.year {
      YearsMonotone(b.year, a.year);
      assert false;
    }
    if a.month < b.month {
      MonthsMonotone(a.year, a.month, b.month);
      assert false;
    } else if b.month < a.month {
      MonthsMonotone(a.year, b.month, a.month);
      assert false;
    }
  }

  lemma SameDateIffSameDayNumber(a: Date, b: Date)
    requires ValidDate(a) && ValidDate(b)
    ensures a == b <==> DayNumber(a) == DayNumber(b)
  {
    if DayNumber(a) == DayNumber(b) {
      DayNumberInjective(a, b);
    }
  }

  function PrevMonth(y: int, m: int): (int, int) {
    if m == 0 then (y - 1, 11) else (y, m - 1)
  }

  function NextMonth(y: int, m: int): (int, int) {
    if m == 11 then (y + 1, 0) else (y, m + 1)
  }

  /** The month after `m` starts right after its last day. */
  lemma NextMonthStart(y: int, m: int)
    requires 0 <= m < 12
    ensures 0 <= NextMonth(y, m).1 < 12
    ensures DayNumber(Date(NextMonth(y, m).0, NextMonth(y, m).1, 1))
         == DayNumber(Date(y, m, 1)) + DaysInMonth(y, m)
  {
    if m == 11 {
      YearStep(y);
      MonthsFillYear(y);
    }
  }

  /** The month before `m` ends right before its first day. */
  lemma PrevMonthEnd(y: int, m: int)
    requires 0 <= m < 12
    ensures 0 <= PrevMonth(y, m).1 < 12
    ensures DayNumber(Date(PrevMonth(y, m).0, PrevMonth(y, m).1, 1))
          + DaysInMonth(PrevMonth(y, m).0, PrevMonth(y, m).1) == DayNumber(Date(y, m, 1))
  {
    var (py, pm) := PrevMonth(y, m);
    assert NextMonth(py, pm) == (y, m);
    NextMonthStart(py, pm);
  }

  /** `x.setDate(d)`: the date `d - 1` days after the first of `x`'s month,
      normalised into the month before or after when `d` falls outside. */
  function SetDate(x: Date, d: int): (r: Date)
    requires ValidDate(x)
    requires -27 <= d <= 56
    ensures ValidDate(r)
    ensures DayNumber(r) == DayNumber(Date(x.year, x.month, 1)) + d - 1
  {
    var dim := DaysInMonth(x.year, x.month);
    if d < 1 then
      var (py, pm) := PrevMonth(x.year, x.month);
      PrevMonthEnd(x.year, x.month);
      Date(py, pm, DaysInMonth(py, pm) + d)
    else if d <= dim then
      Date(x.year, x.month, d)
    else
      var (ny, nm) := NextMonth(x.year, x.month);
      NextMonthStart(x.year, x.month);
      Date(ny, nm, d - dim)
  }

  /** `new Date(y, m, d)`: the month index is first folded into the year
      (month -1 is December of the year before, month 12 January of the year
      after), then the day is normalised as `setDate` does. */
  function MakeDate(y: int, m: int, d: int): (r: Date)
    requires -27 <= d <= 56
    ensures ValidDate(r)
    ensures DayNumber(r) == DayNumber(Date(y + m / 12, m % 12, 1)) + d - 1
  {
    SetDate(Date(y + m / 12, m % 12, 1), d)
  }

  /** A `Date` object: a calendar date and a time of day in milliseconds. */
  datatype Moment = Moment(date: Date, msOfDay: int)

  predicate ValidMoment(t: Moment) {
    ValidDate(t.date) && 0 <= t.msOfDay < 86400000
  }
}
