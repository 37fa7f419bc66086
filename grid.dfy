/** The month grid that `renderCalendar` appends to the calendar element:
    seven weekday headers, then blank cells up to the weekday of the first of
    the month (Monday-first), then one cell per day of the month. */
module Grid {
  import opened Dates
  import opened Navigation

  /** The CSS classes the picker puts on day cells. */
  datatype CssClass = CalendarDay | Selected | Start | End | InRange

  datatype Cell =
    | WeekdayHeader(text: char)  // class "day-of-week"
    | Blank
    | Day(number: int, date: Date, classes: set<CssClass>)

  /** Header labels, Monday first. */
  const WeekdayLabels: seq<char> := ['M', 'T', 'W', 'T', 'F', 'S', 'S']

  function FirstOfMonth(ym: YearMonth): Date {
    Date(ym.year, ym.month, 1)
  }

  /** Column of a date in a Monday-first week: 0 is Monday, 6 is Sunday. */
  function MondayColumn(d: Date): (c: int)
    requires ValidMonth(d.month)
    ensures 0 <= c < 7
    ensures c == DayNumber(d) % 7
  {
    (JsGetDay(d) + 6) % 7
  }

  /** `startingDayIndex`: the number of blank cells before day 1. */
  function LeadingBlanks(ym: YearMonth): (n: int)
    requires ValidMonth(ym.month)
    ensures 0 <= n < 7
    ensures n == MondayColumn(FirstOfMonth(ym))
  {
    (JsGetDay(FirstOfMonth(ym)) + 6) % 7
  }

  /** The cells of the grid for month `ym`, in order. Day cells carry the class
      `calendar-day` and no highlight yet. */
  function Layout(ym: YearMonth): (r: seq<Cell>)
    requires ValidMonth(ym.month)
    ensures |r| == 7 + LeadingBlanks(ym) + DaysInMonth(ym.year, ym.month)
    ensures forall i :: 0 <= i < |r| && r[i].Day? ==>
              ValidDate(r[i].date) && r[i].date.year == ym.year && r[i].date.month == ym.month &&
              r[i].number == r[i].date.day && r[i].classes == {CalendarDay}
  {
    var lead := LeadingBlanks(ym);
    var days := DaysInMonth(ym.year, ym.month);
    seq(7 + lead + days, i requires 0 <= i < 7 + lead + days =>
      if i < 7 then WeekdayHeader(WeekdayLabels[i])
      else if i < 7 + lead then Blank
      else Day(i - 6 - lead, Date(ym.year, ym.month, i - 6 - lead), {CalendarDay}))
  }

  /** `renderCalendar`'s three loops: headers, leading blanks, then the days 1..daysInMonth. */
  method BuildGrid(ym: YearMonth) returns (cells: seq<Cell>)
    requires ValidMonth(ym.month)
    ensures cells == Layout(ym)
  {
    ghost var layout := Layout(ym);
    cells := [];
    for k := 0 to |WeekdayLabels|
      invariant cells == layout[..k]
    {
      cells := cells + [WeekdayHeader(WeekdayLabels[k])];
    }
    var startingDayIndex := (JsGetDay(FirstOfMonth(ym)) + 6) % 7;
    for i := 0 to startingDayIndex
      invariant cells == layout[..7 + i]
    {
      cells := cells + [Blank];
    }
    var daysInMonth := DaysInMonth(ym.year, ym.month);
    for i := 1 to daysInMonth + 1
      invariant cells == layout[..6 + startingDayIndex + i]
    {
      cells := cells + [Day(i, Date(ym.year, ym.month, i), {CalendarDay})];
    }
  }

  /** The grid's shape: exactly seven headers, then `LeadingBlanks` (0..6) blanks, then
      the days 1..DaysInMonth in order, each day in the column of its weekday. */
  lemma LayoutShape(ym: YearMonth)
    requires ValidMonth(ym.month)
    ensures var lead, days := LeadingBlanks(ym), DaysInMonth(ym.year, ym.month);
      && |Layout(ym)| == 7 + lead + days
      && (forall i :: 0 <= i < 7 ==> Layout(ym)[i] == WeekdayHeader(WeekdayLabels[i]))
      && (forall i :: 7 <= i < 7 + lead ==> Layout(ym)[i] == Blank)
      && (forall k :: 1 <= k <= days ==>
            Layout(ym)[6 + lead + k] == Day(k, Date(ym.year, ym.month, k), {CalendarDay}))
  {
  }

  /** Every day cell sits in the column (index modulo 7) of its own weekday. */
  lemma DayInItsWeekdayColumn(ym: YearMonth, k: int)
    requires ValidMonth(ym.month)
    requires 1 <= k <= DaysInMonth(ym.year, ym.month)
    ensures ValidDate(Date(ym.year, ym.month, k))
    ensures (6 + LeadingBlanks(ym) + k) % 7 == MondayColumn(Date(ym.year, ym.month, k))
  {
    DayNumberInMonth(ym.year, ym.month, k);
    var n := DayNumber(FirstOfMonth(ym));
    assert MondayColumn(Date(ym.year, ym.month, k)) == (n + k - 1) % 7;
    assert LeadingBlanks(ym) == n % 7;
    ModAdd(n, k + 6);
    ModPeriodic(1, n + k - 1);
  }

  /** March 2024 begins on a Friday, so its grid has four leading blanks. */
  lemma March2024Layout()
    ensures LeadingBlanks(YearMonth(2024, 3)) == 4
    ensures Layout(YearMonth(2024, 3))[11] == Day(1, Date(2024, 3, 1), {CalendarDay})
  {
    WeekdayFromEpoch(Date(2024, 3, 1));
  }

  /** The day cells of the grid are exactly the valid dates of the month, each once. */
  lemma DayCellsAreTheMonth(ym: YearMonth, d: Date)
    requires ValidMonth(ym.month)
    ensures (d.year == ym.year && d.month == ym.month && ValidDate(d)) <==>
            (exists i :: 0 <= i < |Layout(ym)| && Layout(ym)[i].Day? && Layout(ym)[i].date == d)
    ensures forall i, j :: 0 <= i < j < |Layout(ym)| && Layout(ym)[i].Day? && Layout(ym)[j].Day? ==>
              Layout(ym)[i].date != Layout(ym)[j].date
  {
    if d.year == ym.year && d.month == ym.month && ValidDate(d) {
      var i := 6 + LeadingBlanks(ym) + d.day;
      assert Layout(ym)[i].date == d;
    }
  }

  /** February has 29 day cells in a leap year and 28 otherwise; 2024 and 2023 as examples. */
  lemma FebruaryCells(y: int)
    ensures |Layout(YearMonth(y, 2))| - 7 - LeadingBlanks(YearMonth(y, 2)) == if IsLeapYear(y) then 29 else 28
    ensures IsLeapYear(2024) && !IsLeapYear(2023) && !IsLeapYear(1900) && IsLeapYear(2000)
  {
  }
}
