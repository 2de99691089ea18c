/** The date-picker modal: a Sunday-aligned grid of whole weeks covering the
    displayed month, month navigation with year wrap, and selection, which
    reports the picked date and then closes the picker. */
module Calendar {
  import opened Dates

  /** The first of the month `date` falls in. */
  function MonthStart(date: Date): Date {
    Date(date.year, date.month, 1)
  }

  /** Grid cells before the first of the month (days of the month before). */
  function Lead(date: Date): nat
    requires 0 <= date.month < 12
    ensures Lead(date) < 7
  {
    Weekday(MonthStart(date))
  }

  /** A valid date shortly before the first of month `m` lies in the month
      before, so its month field differs. */
  lemma BeforeMonthStart(d: Date, y: int, m: int)
    requires 0 <= m < 12 && ValidDate(d)
    requires DayNumber(Date(y, m, 1)) - 7 < DayNumber(d) < DayNumber(Date(y, m, 1))
    ensures d.month != m
  {
    var (py, pm) := PrevMonth(y, m);
    PrevMonthEnd(y, m);
    var back := DayNumber(Date(y, m, 1)) - DayNumber(d);
    var e := Date(py, pm, DaysInMonth(py, pm) + 1 - back);
    DayNumberInjective(d, e);
  }

  /** A valid date shortly after the last of month `m` lies in the month
      after, so its month field differs. */
  lemma AfterMonthEnd(d: Date, y: int, m: int)
    requires 0 <= m < 12 && ValidDate(d)
    requires DayNumber(Date(y, m, DaysInMonth(y, m))) < DayNumber(d)
             <= DayNumber(Date(y, m, DaysInMonth(y, m))) + 7
    ensures d.month != m
  {
    var (ny, nm) := NextMonth(y, m);
    NextMonthStart(y, m);
    var ahead := DayNumber(d) - DayNumber(Date(y, m, DaysInMonth(y, m)));
    var e := Date(ny, nm, ahead);
    DayNumberInjective(d, e);
  }

  /** `new Date(y, m, 1)` for a month index one past either end of the year. */
  lemma MakeFirstOfMonth(y: int, m: int)
    requires -1 <= m <= 12
    ensures MakeDate(y, m, 1) == if m == -1 then Date(y - 1, 11, 1)
                                 else if m == 12 then Date(y + 1, 0, 1)
                                 else Date(y, m, 1)
  {
    if m == -1 {
      assert m / 12 == -1 && m % 12 == 11;
    } else if m == 12 {
      assert m / 12 == 1 && m % 12 == 0;
    } else {
      assert m / 12 == 0 && m % 12 == m;
    }
  }

  /** `new Date(y, m + 1, 0)` is the last day of month `m`. */
  lemma MakeLastOfMonth(y: int, m: int)
    requires 0 <= m < 12
    ensures MakeDate(y, m + 1, 0) == Date(y, m, DaysInMonth(y, m))
  {
    if m == 11 {
      assert (m + 1) / 12 == 1 && (m + 1) % 12 == 0;
    } else {
      assert (m + 1) / 12 == 0 && (m + 1) % 12 == m + 1;
    }
  }

  /** What the picker's grid for the month of `date` is: whole weeks (at most
      six) of consecutive valid days, starting on the Sunday on or before the
      first of the month and ending on a Saturday, in which day `k` of the
      month sits at cell `Lead + k - 1` and no other cell has the month's
      month field. */
  predicate IsMonthGrid(date: Date, days: seq<Date>)
    requires 0 <= date.month < 12
  {
    var dim := DaysInMonth(date.year, date.month);
    var lead := Lead(date);
    && |days| % 7 == 0 && lead + dim <= |days| < lead + dim + 7 && |days| <= 42
    && (forall i :: 0 <= i < |days| ==> ValidDate(days[i]))
    && Weekday(days[0]) == 0
    && DayNumber(days[0]) == DayNumber(MonthStart(date)) - lead
    && (forall i :: 0 < i < |days| ==> DayNumber(days[i]) == DayNumber(days[i - 1]) + 1)
    && (forall k :: 1 <= k <= dim ==> days[lead + k - 1] == Date(date.year, date.month, k))
    && Weekday(days[|days| - 1]) == 6
    && (forall i :: 0 <= i < |days| ==> (days[i].month == date.month <==> lead <= i < lead + dim))
  }

  /** The facts the grid loop establishes: consecutive valid days from the
      Sunday on or before the first of the month, stopping on the first
      Sunday after its last day. */
  predicate IsGridRun(date: Date, days: seq<Date>)
    requires ValidDate(date)
  {
    var start := DayNumber(MonthStart(date)) - Lead(date);
    var end := start + |days|;
    && (forall i :: 0 <= i < |days| ==> ValidDate(days[i]) && DayNumber(days[i]) == start + i)
    && end > DayNumber(Date(date.year, date.month, DaysInMonth(date.year, date.month)))
    && (end + 4) % 7 == 0
    && |days| <= Lead(date) + DaysInMonth(date.year, date.month) + 6
  }

  /** Day `k` of the month sits at cell `Lead + k - 1`. */
  lemma RunCoversMonth(date: Date, days: seq<Date>)
    requires ValidDate(date) && IsGridRun(date, days)
    ensures Lead(date) + DaysInMonth(date.year, date.month) <= |days|
    ensures forall k :: 1 <= k <= DaysInMonth(date.year, date.month) ==>
      days[Lead(date) + k - 1] == Date(date.year, date.month, k)
  {
    var y, m := date.year, date.month;
    var lead := Lead(date);
    forall k | 1 <= k <= DaysInMonth(y, m)
      ensures days[lead + k - 1] == Date(y, m, k)
    {
      DayNumberInjective(days[lead + k - 1], Date(y, m, k));
    }
  }

  /** Only the cells of the month itself carry its month field. */
  lemma RunMonthField(date: Date, days: seq<Date>)
    requires ValidDate(date) && IsGridRun(date, days)
    ensures forall i :: 0 <= i < |days| ==>
      (days[i].month == date.month <==> Lead(date) <= i < Lead(date) + DaysInMonth(date.year, date.month))
  {
    var y, m := date.year, date.month;
    var dim := DaysInMonth(y, m);
    var lead := Lead(date);
    RunCoversMonth(date, days);
    forall i | 0 <= i < |days|
      ensures days[i].month == m <==> lead <= i < lead + dim
    {
      if i < lead {
        BeforeMonthStart(days[i], y, m);
      } else if i >= lead + dim {
        AfterMonthEnd(days[i], y, m);
      } else {
        assert days[lead + (i - lead + 1) - 1] == Date(y, m, i - lead + 1);
      }
    }
  }

  /** Stepping back `(f + 4) % 7` days from day number `f` reaches a Sunday. */
  lemma BackToSunday(f: int)
    ensures (f - (f + 4) % 7 + 4) % 7 == 0
  {
  }

  /** A run of `n` days from a Sunday to the day before a Sunday is whole
      weeks and ends on a Saturday; with at most 43 days it is at most six
      weeks. */
  lemma WeekArithmetic(start: int, n: int)
    requires (start + 4) % 7 == 0 && (start + n + 4) % 7 == 0
    requires 0 < n <= 43
    ensures n % 7 == 0 && n <= 42
    ensures (start + n - 1 + 4) % 7 == 6
  {
  }

  /** Whole weeks, at most six, from a Sunday to a Saturday. */
  lemma RunShape(date: Date, days: seq<Date>)
    requires ValidDate(date) && IsGridRun(date, days)
    ensures |days| % 7 == 0 && |days| <= 42
    ensures |days| > 0 && Weekday(days[0]) == 0 && Weekday(days[|days| - 1]) == 6
  {
    var first := DayNumber(MonthStart(date));
    var start := first - Lead(date);
    BackToSunday(first);
    RunCoversMonth(date, days);
    WeekArithmetic(start, |days|);
    assert DayNumber(days[0]) == start;
    assert DayNumber(days[|days| - 1]) == start + |days| - 1;
  }

  /** The loop's run is the month grid. */
  lemma RunIsMonthGrid(date: Date, days: seq<Date>)
    requires ValidDate(date) && IsGridRun(date, days)
    ensures IsMonthGrid(date, days)
  {
    RunCoversMonth(date, days);
    RunMonthField(date, days);
    RunShape(date, days);
  }

  /** A day still inside the month, or past it but not a Sunday, comes
      before the first Sunday after the month. */
  lemma BeforeStop(cur: int, last: int, stop: int)
    requires cur <= stop && last < stop <= last + 7 && (stop + 4) % 7 == 0
    requires cur <= last || (cur + 4) % 7 != 0
    ensures cur < stop
  {
  }

  /** The loop's exit state, stated on day numbers, is a grid run. */
  lemma EstablishGridRun(date: Date, days: seq<Date>, start: int, last: int, end: int)
    requires ValidDate(date)
    requires start == DayNumber(MonthStart(date)) - Lead(date)
    requires last == DayNumber(Date(date.year, date.month, DaysInMonth(date.year, date.month)))
    requires forall i :: 0 <= i < |days| ==> ValidDate(days[i]) && DayNumber(days[i]) == start + i
    requires end == start + |days| && last < end <= last + 7 && (end + 4) % 7 == 0
    ensures IsGridRun(date, days)
  {
  }

  /** February 1970 began on a Sunday and had 28 days, so its grid is
      exactly four weeks: no week of March is drawn. */
  lemma February1970Grid(days: seq<Date>)
    requires IsMonthGrid(Date(1970, 1, 1), days)
    ensures |days| == 28
  {
    assert Lead(Date(1970, 1, 1)) == 0;
  }

  /** The day number of the first Sunday after day number `last`. */
  lemma FirstSundayAfter(last: int) returns (stop: int)
    ensures last < stop <= last + 7 && (stop + 4) % 7 == 0
  {
    stop := last + 1 + (7 - (last + 5) % 7) % 7;
  }

  /** The month grid: consecutive days from the Sunday on or before the first
      of the month until the first Sunday after its last day. */
  method GetDaysInMonth(date: Moment) returns (days: seq<Date>)
    requires ValidDate(date.date)
    ensures IsMonthGrid(date.date, days)
  {
    var year := date.date.year;
    var month := date.date.month;
    var firstDay := MakeDate(year, month, 1);
    var lastDay := MakeDate(year, month + 1, 0);
    var startDate := SetDate(firstDay, firstDay.day - Weekday(firstDay));

    MakeFirstOfMonth(year, month);
    MakeLastOfMonth(year, month);
    ghost var start := DayNumber(startDate);
    ghost var last := DayNumber(lastDay);
    ghost var stop := FirstSundayAfter(last);

    days := [];
    var currentDay := startDate;
    while DayNumber(currentDay) <= DayNumber(lastDay) || Weekday(currentDay) != 0
      invariant ValidDate(currentDay)
      invariant DayNumber(currentDay) == start + |days| <= stop
      invariant forall i :: 0 <= i < |days| ==> ValidDate(days[i]) && DayNumber(days[i]) == start + i
      decreases stop - DayNumber(currentDay)
    {
      BeforeStop(DayNumber(currentDay), last, stop);
      days := days + [currentDay];
      currentDay := SetDate(currentDay, currentDay.day + 1);
    }
    assert start == DayNumber(MonthStart(date.date)) - Lead(date.date);
    assert (DayNumber(currentDay) + 4) % 7 == 0;
    EstablishGridRun(date.date, days, start, last, DayNumber(currentDay));
    RunIsMonthGrid(date.date, days);
  }

  /** Going one month forward and back lands on the first of the month, and
      the next month starts `DaysInMonth` days after this one. */
  lemma MonthNavigation(y: int, m: int)
    requires 0 <= m < 12
    ensures MakeDate(MakeDate(y, m + 1, 1).year, MakeDate(y, m + 1, 1).month - 1, 1) == Date(y, m, 1)
    ensures MakeDate(MakeDate(y, m - 1, 1).year, MakeDate(y, m - 1, 1).month + 1, 1) == Date(y, m, 1)
    ensures DayNumber(MakeDate(y, m + 1, 1)) == DayNumber(Date(y, m, 1)) + DaysInMonth(y, m)
  {
    NextMonthStart(y, m);
    MakeFirstOfMonth(y, m + 1);
    MakeFirstOfMonth(y, m - 1);
    var n := MakeDate(y, m + 1, 1);
    var p := MakeDate(y, m - 1, 1);
    MakeFirstOfMonth(n.year, n.month - 1);
    MakeFirstOfMonth(p.year, p.month + 1);
  }

  /** A valid day lies in month `m` of its own year exactly when its day
      number falls within that month's days. */
  lemma SameYearMonthRange(day: Date, m: int)
    requires ValidDate(day) && 0 <= m < 12
    ensures day.month == m <==>
      DayNumber(Date(day.year, m, 1)) <= DayNumber(day) < DayNumber(Date(day.year, m, 1)) + DaysInMonth(day.year, m)
  {
    if day.month < m {
      MonthsMonotone(day.year, day.month, m);
    } else if m < day.month {
      MonthsMonotone(day.year, m, day.month);
    }
  }

  /** The callbacks the picker has called, in order. */
  datatype Callback = DateSelected(date: Moment) | Closed

  class CalendarPicker {
    const selectedDate: Moment
    var currentDate: Moment
    var calls: seq<Callback>

    ghost predicate Valid()
      reads this
    {
      ValidMoment(selectedDate) && ValidMoment(currentDate)
    }

    /** The picker opens on a copy of the selected date. */
    constructor (selectedDate: Moment)
      requires ValidMoment(selectedDate)
      ensures Valid()
      ensures this.selectedDate == selectedDate && currentDate == selectedDate && calls == []
    {
      this.selectedDate := selectedDate;
      currentDate := selectedDate;
      calls := [];
    }

    /** Midnight on the first of the month before, wrapping to December of
        the year before in January. */
    method HandlePrevMonth()
      requires Valid()
      modifies this
      ensures Valid()
      ensures currentDate.msOfDay == 0
      ensures old(currentDate.date.month) == 0 ==>
        currentDate.date == Date(old(currentDate.date.year) - 1, 11, 1)
      ensures old(currentDate.date.month) != 0 ==>
        currentDate.date == Date(old(currentDate.date.year), old(currentDate.date.month) - 1, 1)
      ensures calls == old(calls)
    {
      MakeFirstOfMonth(currentDate.date.year, currentDate.date.month - 1);
      currentDate := Moment(MakeDate(currentDate.date.year, currentDate.date.month - 1, 1), 0);
    }

    /** Midnight on the first of the month after, wrapping to January of the
        year after in December. */
    method HandleNextMonth()
      requires Valid()
      modifies this
      ensures Valid()
      ensures currentDate.msOfDay == 0
      ensures old(currentDate.date.month) == 11 ==>
        currentDate.date == Date(old(currentDate.date.year) + 1, 0, 1)
      ensures old(currentDate.date.month) != 11 ==>
        currentDate.date == Date(old(currentDate.date.year), old(currentDate.date.month) + 1, 1)
      ensures calls == old(calls)
    {
      MakeFirstOfMonth(currentDate.date.year, currentDate.date.month + 1);
      currentDate := Moment(MakeDate(currentDate.date.year, currentDate.date.month + 1, 1), 0);
    }

    /** Picking a cell reports its date (midnight) and then closes the picker. */
    method HandleDateSelect(day: Date)
      modifies this
      ensures calls == old(calls) + [DateSelected(Moment(day, 0)), Closed]
      ensures currentDate == old(currentDate)
    {
      calls := calls + [DateSelected(Moment(day, 0))];
      calls := calls + [Closed];
    }

    /** Same calendar day as the selected date, whatever the time of day
        (`toDateString` equality). */
    function IsSelected(day: Date): (r: bool)
      reads this
      requires Valid() && ValidDate(day)
      ensures r <==> DayNumber(day) == DayNumber(selectedDate.date)
    {
      SameDateIffSameDayNumber(day, selectedDate.date);
      day == selectedDate.date
    }

    /** Compares the month field only, not the year. For a day of the
        displayed year this is exactly "falls within the displayed month". */
    predicate IsCurrentMonth(day: Date)
      reads this
      ensures (ValidDate(day) && ValidDate(currentDate.date) && day.year == currentDate.date.year) ==>
        (IsCurrentMonth(day) <==>
          DayNumber(MonthStart(currentDate.date)) <= DayNumber(day)
            < DayNumber(MonthStart(currentDate.date)) + DaysInMonth(currentDate.date.year, currentDate.date.month))
    {
      if ValidDate(day) && ValidDate(currentDate.date) && day.year == currentDate.date.year then
        SameYearMonthRange(day, currentDate.date.month);
        day.month == currentDate.date.month
      else
        day.month == currentDate.date.month
    }

    /** The cells the picker draws; exactly the days of the displayed month
        are marked as belonging to it. */
    method DisplayedDays() returns (days: seq<Date>)
      requires Valid()
      ensures IsMonthGrid(currentDate.date, days)
      ensures forall i :: 0 <= i < |days| ==>
        (IsCurrentMonth(days[i]) <==>
          (Lead(currentDate.date) <= i < Lead(currentDate.date)
                                         + DaysInMonth(currentDate.date.year, currentDate.date.month)))
    {
      days := GetDaysInMonth(currentDate);
    }
  }
}
