# Date-range picker and KPI helpers, modelled in Dafny

This project models the logic of two dashboard widgets.

The **date-range picker** (`select-timeframe/script.js`) shows one month as a grid and turns clicks on its day cells into a start/end range:

- `Selection` holds the two selection slots, the click rule and the reset. It proves that an end date is only ever present together with an earlier start date, and that the click rule follows a three-phase machine (Empty, StartOnly, Range).
- `Grid` builds the month grid with the source's three counting loops (`BuildGrid`). It proves the grid's shape: 7 weekday headers, then 0..6 blanks, then days 1..n. It also proves that every day lands in the column of its own weekday.
- `Highlight` is the per-cell classification (`start`, `end`, `in-range`, `selected`). It proves that the classification depends only on the current selection and is idempotent.
- `Picker.DateRangePicker` is a class whose fields are the two slots, the month on show and the grid. Its methods are the page's event handlers.
- `Dates` holds the Gregorian arithmetic the browser's `Date` provides: the leap-year rule, month lengths and a day count standing in for `getDay`. It proves that comparing (year, month, day) triples lexicographically is the same as comparing the instants that the source compares.
- `Navigation` holds month navigation (see Findings).

The **KPI panel** (`app.js`) contributes its pure helpers, in `Kpi` and `Tooltip`:

- `sum` and `average`;
- the per-operator series selection;
- the "teli" scaling;
- the `all` and `efficiencyAll` aggregation of the mock data;
- the average-line tooltip's hit test and clamp.

Numbers are `real`, so the model has no floating-point rounding. Months are numbered 1..12; JavaScript's `Date` numbers them 0..11.

The click handler compares dates with `<` and `>`, so a click on the current start date while no end is set matches neither branch and changes nothing (`Selection.ClickOnStartIsNoOp`). As a value that state is the same as "restart at the clicked date", so the three-phase reading "a date not after the start restarts the selection" holds as well (`Selection.ClickFollowsPhaseMachine`).

## Model

| member | source | states |
|---|---|---|
| `Dates.DaysInMonth` | select-timeframe/script.js:74-78 | a month has 28..31 days; February has 29 exactly in a leap year and 28 otherwise; other months have 30 or 31 |
| `Dates.DaysBeforeYearStep` | select-timeframe/script.js:74-78 | the closed-form day count of whole years grows by exactly the leap-rule length of each year |
| `Dates.WholeYear` | select-timeframe/script.js:74-78 | the twelve month lengths add up to 366 in a leap year and 365 otherwise |
| `Dates.JsGetDay` | select-timeframe/script.js:61-65 | the stand-in for `getDay` is a weekday number 0..6 (its value on every date is fixed by `Dates.WeekdayFromEpoch`) |
| `Dates.WeekdayFromEpoch` | select-timeframe/script.js:61-65 | the stand-in for `getDay` agrees with ECMAScript's WeekDay(t) = (days since 1970-01-01 + 4) modulo 7 on every valid date; 1 January 1970 is a Thursday (4) and 1 March 2024 a Friday (5) |
| `Dates.WeekdayNext` | select-timeframe/script.js:61-65 | the weekday advances by one, modulo 7, from any valid day to the next, across month and year ends |
| `Dates.DayNumberNext` | select-timeframe/script.js:83-87 | consecutive dates have consecutive positions on the time line |
| `Dates.BeforeIsDayOrder` | select-timeframe/script.js:113-125 | for valid dates, lexicographic order of (year, month, day) is the order of their instants, and equal triples are equal instants, which is what `<`, `>` and `getTime() ===` compare |
| `Dates.BeforeStrictTotal` | select-timeframe/script.js:113-125 | the date order is irreflexive, asymmetric, transitive and total |
| `Navigation.Shift` | select-timeframe/script.js:96-104 | the shown month moves by exactly `delta` calendar months, always onto a valid month |
| `Navigation.ShiftByOne` | select-timeframe/script.js:96-104 | next after December is January of the next year; previous before January is December of the previous year; otherwise the year is kept |
| `Navigation.ShiftRoundTrip` | select-timeframe/script.js:96-104 | "previous" undoes "next" and vice versa |
| `Navigation.SetMonthAsWritten` | select-timeframe/script.js:96-104 | `setMonth` keeps the day of the month and overflows into the following month; the result is a valid date |
| `Navigation.AsWrittenOvershootsByAtMostOne` | select-timeframe/script.js:96-104 | as written, the month shown is the intended one or the one after it, and always the intended one when the day is at most 28 |
| `Navigation.NextFromJanuary31SkipsFebruary` | select-timeframe/script.js:101-104 | as written, "next" from 31 January 2024 lands on 2 March 2024, where February was intended |
| `Navigation.PreviousFromMarch31StaysInMarch` | select-timeframe/script.js:96-99 | as written, "previous" from 31 March 2023 lands on 3 March 2023, where February was intended |
| `Selection.Cleared` | select-timeframe/script.js:181-183 | reset empties both slots and satisfies the invariant |
| `Selection.Click` | select-timeframe/script.js:113-125 | after any click, from any state, the invariant holds and a start is set; the start is the clicked date or the old start; an end, if any, is the clicked date and the start is unchanged |
| `Selection.ClickRestarts` | select-timeframe/script.js:113-121 | with no start, a date before the start, or an end already set, the click makes the date the start and clears the end |
| `Selection.ClickSetsEnd` | select-timeframe/script.js:122-125 | with a start and no end, a later date becomes the end and the start is kept |
| `Selection.ClickOnStartIsNoOp` | select-timeframe/script.js:113-125 | clicking the start date while no end is set changes nothing |
| `Selection.ClickFollowsPhaseMachine` | select-timeframe/script.js:113-125 | from Empty or Range every click gives StartOnly at the date; from StartOnly, a later date gives Range and any other date gives StartOnly at that date |
| `Selection.ResetDisabled` | select-timeframe/script.js:174-178 | under the invariant the reset button is disabled exactly in phase Empty |
| `Selection.ResetDisabledIffEmpty` | select-timeframe/script.js:174-178 | under the invariant the reset button is disabled exactly in phase Empty, and it is disabled after a reset |
| `Selection.RunKeepsInv` | select-timeframe/script.js:107-186 | every sequence of clicks and resets keeps the invariant "an end only with an earlier start"; one ending in a click never ends in Empty |
| `Selection.TwoClicksExample` | select-timeframe/script.js:113-125 | clicking 10 then 15 March 2024 selects the range from the 10th to the 15th |
| `Grid.MondayColumn` | select-timeframe/script.js:66 | `(getDay + 6) % 7` is a column 0..6 and equals the day count modulo 7 (Monday = 0) |
| `Grid.LeadingBlanks` | select-timeframe/script.js:60-66 | the number of leading blanks is 0..6 and is the Monday-first column of the first of the month |
| `Grid.BuildGrid` | select-timeframe/script.js:50-89 | the three loops produce exactly the grid layout of the month |
| `Grid.Layout` | select-timeframe/script.js:51-89 | the grid has 7 + leading blanks + days-in-month cells, and every day cell holds a valid date of the shown month, its day number, and only the class `calendar-day` |
| `Grid.LayoutShape` | select-timeframe/script.js:51-89 | seven weekday headers M T W T F S S come first, then `LeadingBlanks` blanks, then cells for days 1..DaysInMonth in order, each carrying its date and the class `calendar-day` |
| `Grid.DayInItsWeekdayColumn` | select-timeframe/script.js:60-89 | every day cell's position modulo 7 is its own Monday-first weekday |
| `Grid.March2024Layout` | select-timeframe/script.js:60-89 | March 2024 begins on a Friday: four leading blanks, and day 1 is cell 11 |
| `Grid.DayCellsAreTheMonth` | select-timeframe/script.js:74-89 | the day cells are exactly the valid dates of the month, with no date twice |
| `Grid.FebruaryCells` | select-timeframe/script.js:74-78 | February's grid has 29 day cells in a leap year and 28 otherwise (2024 leap, 2023 and 1900 not, 2000 leap) |
| `Highlight.Classify` | select-timeframe/script.js:138-157 | only highlight classes are added; an `in-range` day is never `start`, `end` or `selected`; under the invariant no day is both `start` and `end` |
| `Highlight.ClassifyMeaning` | select-timeframe/script.js:138-157 | `start` iff the day is the start, `end` iff it is the end, `selected` iff either, `in-range` iff both are set and the day lies strictly between them |
| `Highlight.RestyleCell` | select-timeframe/script.js:133-158 | only day cells change; after the update a day cell's highlight classes are exactly its classification and its other classes are kept |
| `Highlight.Restyled` | select-timeframe/script.js:135-158 | the `forEach` over the grid keeps every cell's kind and position; non-day cells are untouched; each day cell keeps its date and its highlight becomes its classification |
| `Highlight.RestyleOverrides` | select-timeframe/script.js:137-157 | because old classes are removed first, restyling after an earlier restyle equals restyling once with the latest selection |
| `Highlight.RestyleIdempotent` | select-timeframe/script.js:137-157 | reapplying the classification with an unchanged selection changes nothing |
| `Highlight.RangeExample` | select-timeframe/script.js:138-157 | with the range 10..15 March 2024 the 12th is `in-range`, the 10th `start`, the 15th `end` and the 20th unhighlighted |
| `Picker.DateRangePicker.constructor` | select-timeframe/script.js:11-14 | on page load both slots are empty, today's month is shown, the grid is rendered and highlighted, and the reset button is disabled |
| `Picker.DateRangePicker.ResetButtonDisabled` | select-timeframe/script.js:173-178 | the button is disabled exactly when the picker is in phase Empty |
| `Picker.DateRangePicker.RenderCalendar` | select-timeframe/script.js:44-92 | the grid becomes the month's layout highlighted for the current selection |
| `Picker.DateRangePicker.UpdateCalendarDisplay` | select-timeframe/script.js:133-159 | every cell is restyled from the current selection, in place |
| `Picker.DateRangePicker.ClickCell` | select-timeframe/script.js:107-131 | a click on a day cell applies `Click` to its date and keeps the invariant and the highlight; a click elsewhere changes nothing |
| `Picker.DateRangePicker.ResetSelection` | select-timeframe/script.js:181-186 | both slots are cleared, the highlight is recomputed and the reset button becomes disabled |
| `Picker.DateRangePicker.PreviousMonth` | select-timeframe/script.js:96-99 | the previous calendar month is shown, re-rendered and highlighted |
| `Picker.DateRangePicker.NextMonth` | select-timeframe/script.js:101-104 | the next calendar month is shown, re-rendered and highlighted |
| `Kpi.SumNonNegative` | app.js:13-15 | a series of non-negative values totals a non-negative number |
| `Kpi.SumAppend` | app.js:13-15 | the total of a concatenation is the sum of the totals |
| `Kpi.SumIsRightFold` | app.js:13-15 | the left fold `reduce((acc, v) => acc + v, 0)` equals the right fold, so the order of addition does not matter |
| `Kpi.SumScale` | app.js:175-178 | scaling every element scales the total |
| `Kpi.Average` | app.js:7-11 | the average of an empty list is 0; otherwise average times length is the sum |
| `Kpi.AverageWithinBounds` | app.js:7-11 | the average of a non-empty series lies between any lower and upper bound of its elements |
| `Kpi.ComputeSeries` | app.js:165-168 | the series shown is always the aggregate, one operator's stored series, or empty |
| `Kpi.ComputeEfficiencySeries` | app.js:170-173 | the efficiency series shown is always the aggregate, one operator's stored series, or empty |
| `Kpi.SeriesSelection` | app.js:165-173 | both selections return the aggregate for "all", the operator's series for a known operator, and exactly the empty series `[]` (so total 0 and average 0) for an unknown one |
| `Kpi.TeliSeries` | app.js:175-178 | the teli series has the base's length, and element i is the base value times the i-th multiplier, or times 100 when there is none |
| `Kpi.ComputeTeliSeries` | app.js:175-178 | the teli series of a selection has one value per value of the selected series, that value times the i-th multiplier or 100 |
| `Kpi.TeliDefaultTotal` | app.js:175-178 | without multipliers the teli total is exactly 100 times the base total |
| `Kpi.TeliTotalBounds` | app.js:175-178 | with multipliers in [lo, hi] on a non-negative series, the teli total lies between lo and hi times the base total |
| `Kpi.CombineTotals` | app.js:143-147 | the `all` series has one value per label, the sum of the two operators' values there, a missing value counting 0 |
| `Kpi.CombineMeans` | app.js:149-153 | `efficiencyAll` has one value per label, half of the `all`-style total of the two operators there |
| `Kpi.CombineTotalsSum` | app.js:143-147 | with one value per label for each operator, the `all` total is the sum of the two operators' totals |
| `Kpi.CombineMeansAverage` | app.js:149-153 | the average of `efficiencyAll` is the mean of the two operators' average efficiencies |
| `Kpi.GetMockData` | app.js:126-163 | five labels; the two operators juan-pedro and juan-franco in both tables, each with five values; `all` is their per-day sum; the multipliers are the ones passed in |
| `Kpi.MockFigures` | app.js:126-163 | on the mock data the `all` series is 12, 13, 11, 11, 13 (total 60, average 12), average efficiency is 70, and the teli total lies in 6000..7200 for multipliers in 100..120 |
| `Tooltip.Placement` | app.js:108-122 | `top` is never negative; `left` is never negative and not beyond `rect.width - tooltipWidth` when that bound is non-negative; each is the unclamped position when that one fits |
| `Tooltip.AfterEvent` | app.js:46-123 | the tooltip is left alone exactly when a guard returns early; when shown, the pointer is inside the chart area (edges included) and within the threshold (10 by default) of the line, and the clamp bounds hold |
| `Tooltip.ShownIffHit` | app.js:56-103 | `mouseout` hides; a pointer event shows the tooltip exactly on a hit and otherwise hides it |
| `Tooltip.ThresholdMonotone` | app.js:90-103 | a larger threshold never hides what a smaller one shows; a missing threshold behaves as 10 |

## Left out

- The DOM: element lookup, `classList`, `innerText`, `textContent`, event listeners and the `DOMContentLoaded` bootstrap. These are I/O plumbing. The grid is a sequence of cell values, and a click is identified by the index of the clicked cell.
- The text of the start/end display and of the month header. They come from `toLocaleDateString` and `toLocaleString`, which are locale formatting.
- Time zones and the `toISOString` round trip of the cell dates. Dates are triples at midnight, and `Dates.BeforeIsDayOrder` relates their order to the instants the source compares.
- The time of day kept in the navigation `Date`.
- The range of JavaScript `Date`, which is about ±273,790 years. Years are unbounded here.
- Years 0..99: `new Date(year, month, day)` reads them as 1900..1999, so for a shown year 0..99 the source lays out and dates the month of year 1900 + year. The model keeps the year as given.
- The commented-out older `renderCalendar`. It is dead code.
- Chart.js: building and updating charts, and the line drawing in `afterDatasetsDraw`. These are calls into a foreign library.
- `initMarkersPanel`: the tabs, colour pickers and `update`. These are UI glue.
- `formatInt`, `formatPercent` and `Math.round`. These are locale formatting and float rounding.
- `Math.random`. The teli multipliers are a parameter of `Kpi.GetMockData`.
- Lookups of inherited object properties, such as operator id "toString" on `byOperator`. The tables are maps, so only their own keys are found.
- Tooltip.AfterEvent: the ratios `rect.width / chart.width` and `rect.height / chart.height` are inputs. This avoids modelling division by a zero chart size. The y scale's `getPixelForValue` is a function parameter. The element's measured size is an input too.
- Picker.DateRangePicker.PreviousMonth and Picker.DateRangePicker.NextMonth use the corrected month arithmetic `Navigation.Shift`, not the day-overflowing `setMonth`. The as-written behaviour is `Navigation.SetMonthAsWritten` (see Findings).

## Findings

| source | as written | input that shows it | evidently intended | confidence | as-written member | corrected member |
|---|---|---|---|---|---|---|
| select-timeframe/script.js:96-104 | month navigation calls `setMonth(getMonth() ± 1)` on the date the picker opened with, keeping its day of the month; a day the target month lacks overflows into the month after it | opened on 31 January 2024, "next" shows March (2 March 2024); opened on 31 March 2023, "previous" stays on March (3 March 2023) | move the shown month by exactly one calendar month | not executed; high (follows from `setMonth`'s documented day overflow) | `Navigation.NextFromJanuary31SkipsFebruary` (with `Navigation.SetMonthAsWritten`, `Navigation.PreviousFromMarch31StaysInMarch`) | `Navigation.Shift` (with `Navigation.ShiftByOne`, `Navigation.ShiftRoundTrip`) |
