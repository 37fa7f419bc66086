/** The date-range picker widget as one object: the two selection slots (the
    module-level `selectedStartDate` and `selectedEndDate`), the month on show and
    the cells of the rendered grid. Each method is one event handler of the page. */
module Picker {
  import opened Wrappers
  import opened Dates
  import opened Navigation
  import opened Selection
  import opened Grid
  import opened Highlight

  class DateRangePicker {
    var selectedStartDate: Option<Date>
    var selectedEndDate: Option<Date>
    var shown: YearMonth
    var grid: seq<Cell>

    function Current(): Selection
      reads this
    {
      Selection(selectedStartDate, selectedEndDate)
    }

    /** The selection invariant holds and the grid shows the month on show,
        highlighted for the current selection. */
    ghost predicate Valid()
      reads this
    {
      Inv(Current()) && ValidMonth(shown.month) && grid == Restyled(Layout(shown), Current())
    }

    /** `updateDisplayDates`: the reset button is disabled iff no date is selected,
        which under the selection invariant is phase Empty. */
    function ResetButtonDisabled(): (disabled: bool)
      reads this
      ensures Inv(Current()) ==> (disabled <==> PhaseOf(Current()) == Empty)
    {
      ResetDisabled(Current())
    }

    /** Page load: `initializeCalendar(calendar, new Date())`, with today's date as a parameter. */
    constructor (today: Date)
      requires ValidDate(today)
      ensures Valid()
      ensures Current() == Cleared() && shown == YearMonth(today.year, today.month)
      ensures ResetButtonDisabled()
    {
      selectedStartDate := None;
      selectedEndDate := None;
      shown := YearMonth(today.year, today.month);
      new;
      RenderCalendar();
    }

    /** `renderCalendar`: rebuild the grid of the month on show and reapply the selection. */
    method RenderCalendar()
      requires Inv(Current()) && ValidMonth(shown.month)
      modifies this`grid
      ensures Valid()
    {
      var cells := BuildGrid(shown);
      grid := cells;
      UpdateCalendarDisplay();
    }

    /** `updateCalendarDisplay`: restyle every day cell from the current selection. */
    method UpdateCalendarDisplay()
      modifies this`grid
      ensures grid == Restyled(old(grid), Current())
    {
      var i := 0;
      while i < |grid|
        invariant 0 <= i <= |grid| == |old(grid)|
        invariant forall j :: 0 <= j < i ==> grid[j] == RestyleCell(old(grid)[j], Current())
        invariant forall j :: i <= j < |grid| ==> grid[j] == old(grid)[j]
      {
        grid := grid[i := RestyleCell(grid[i], Current())];
        i := i + 1;
      }
    }

    /** The calendar's click listener. A click on anything but a day cell is ignored;
        on a day cell it applies the selection rule to the cell's date and restyles. */
    method ClickCell(i: int)
      requires Valid()
      modifies this`selectedStartDate, this`selectedEndDate, this`grid
      ensures Valid()
      ensures 0 <= i < |old(grid)| && old(grid)[i].Day? ==>
                Current() == Click(old(Current()), old(grid)[i].date)
      ensures !(0 <= i < |old(grid)| && old(grid)[i].Day?) ==>
                Current() == old(Current()) && grid == old(grid)
    {
      if 0 <= i < |grid| && grid[i].Day? {
        var clickedDate := grid[i].date;
        if selectedStartDate.None? || Before(clickedDate, selectedStartDate.value) || selectedEndDate.Some? {
          selectedStartDate := Some(clickedDate);
          selectedEndDate := None;
        } else if Before(selectedStartDate.value, clickedDate) {
          selectedEndDate := Some(clickedDate);
        }
        UpdateCalendarDisplay();
        RestyleOverrides(Layout(shown), old(Current()), Current());
      }
    }

    /** `resetSelection`: clear both slots and restyle. */
    method ResetSelection()
      requires Valid()
      modifies this`selectedStartDate, this`selectedEndDate, this`grid
      ensures Valid()
      ensures Current() == Cleared()
      ensures ResetButtonDisabled()
    {
      selectedStartDate := None;
      selectedEndDate := None;
      UpdateCalendarDisplay();
      RestyleOverrides(Layout(shown), old(Current()), Current());
    }

    /** The "previous month" button, one calendar month back. */
    method PreviousMonth()
      requires Valid()
      modifies this`shown, this`grid
      ensures Valid()
      ensures shown == Shift(old(shown), -1)
    {
      shown := Shift(shown, -1);
      RenderCalendar();
    }

    /** The "next month" button, one calendar month forward. */
    method NextMonth()
      requires Valid()
      modifies this`shown, this`grid
      ensures Valid()
      ensures shown == Shift(old(shown), 1)
    {
      shown := Shift(shown, 1);
      RenderCalendar();
    }
  }
}
