/** Month navigation of the picker (the "previous month" and "next month" buttons).

    The source keeps one `Date` (the day the picker was opened) and moves it with
    `setMonth(getMonth() - 1)` / `setMonth(getMonth() + 1)`. `setMonth` keeps the
    day of the month, and a day that the target month lacks overflows into the
    month after it, so from the 29th, 30th or 31st the shown month can skip a
    month or not move at all. `SetMonthAsWritten` models that;
    `Shift` is the intended behaviour on (year, month) pairs, which the picker uses. */
module Navigation {
  import opened Dates

  datatype YearMonth = YearMonth(year: int, month: int)

  /** Months counted from January of year 0. */
  function MonthIndex(ym: YearMonth): int {
    ym.year * 12 + ym.month - 1
  }

  function FromMonthIndex(i: int): (ym: YearMonth)
    ensures ValidMonth(ym.month)
    ensures MonthIndex(ym) == i
  {
    YearMonth(i / 12, i % 12 + 1)
  }

  /** Distinct valid months have distinct indices. */
  lemma MonthIndexInjective(a: YearMonth, b: YearMonth)
    requires ValidMonth(a.month) && ValidMonth(b.month)
    requires MonthIndex(a) == MonthIndex(b)
    ensures a == b
  {
  }

  /** The month `delta` months after `ym` (before it when `delta` is negative),
      wrapping over year boundaries. */
  function Shift(ym: YearMonth, delta: int): (r: YearMonth)
    requires ValidMonth(ym.month)
    ensures ValidMonth(r.month)
    ensures MonthIndex(r) == MonthIndex(ym) + delta
  {
    FromMonthIndex(MonthIndex(ym) + delta)
  }

  /** "Next" and "previous" undo each other. */
  lemma ShiftRoundTrip(ym: YearMonth, delta: int)
    requires ValidMonth(ym.month)
    ensures Shift(Shift(ym, delta), -delta) == ym
  {
    MonthIndexInjective(Shift(Shift(ym, delta), -delta), ym);
  }

  /** One step forward from December is January of the next year, one step back
      from January is December of the previous year; otherwise the year is kept. */
  lemma ShiftByOne(ym: YearMonth)
    requires ValidMonth(ym.month)
    ensures Shift(ym, 1) == if ym.month == 12 then YearMonth(ym.year + 1, 1) else YearMonth(ym.year, ym.month + 1)
    ensures Shift(ym, -1) == if ym.month == 1 then YearMonth(ym.year - 1, 12) else YearMonth(ym.year, ym.month - 1)
  {
    var next := if ym.month == 12 then YearMonth(ym.year + 1, 1) else YearMonth(ym.year, ym.month + 1);
    var prev := if ym.month == 1 then YearMonth(ym.year - 1, 12) else YearMonth(ym.year, ym.month - 1);
    MonthIndexInjective(Shift(ym, 1), next);
    MonthIndexInjective(Shift(ym, -1), prev);
  }

  /** As written: `d.setMonth(d.getMonth() + delta)`. The day of the month is kept;
      when the target month is shorter, the surplus days run into the month after it. */
  function SetMonthAsWritten(d: Date, delta: int): (r: Date)
    requires ValidDate(d)
    ensures ValidDate(r)
  {
    var target := Shift(YearMonth(d.year, d.month), delta);
    var length := DaysInMonth(target.year, target.month);
    if d.day <= length then Date(target.year, target.month, d.day)
    else
      var after := Shift(target, 1);
      Date(after.year, after.month, d.day - length)
  }

  /** As written, the month shown after navigating is the intended one or the one after it,
      and it is the intended one whenever the kept day is at most 28. */
  lemma AsWrittenOvershootsByAtMostOne(d: Date, delta: int)
    requires ValidDate(d)
    ensures var intended := Shift(YearMonth(d.year, d.month), delta);
            var shown := YearMonth(SetMonthAsWritten(d, delta).year, SetMonthAsWritten(d, delta).month);
            (shown == intended || shown == Shift(intended, 1)) &&
            (d.day <= 28 ==> shown == intended)
  {
  }

  /** Counterexample: from 31 January 2024, "next month" shows March (2 March 2024),
      skipping February, whose 2024 length is 29. */
  lemma NextFromJanuary31SkipsFebruary()
    ensures SetMonthAsWritten(Date(2024, 1, 31), 1) == Date(2024, 3, 2)
    ensures Shift(YearMonth(2024, 1), 1) == YearMonth(2024, 2)
  {
    assert FromMonthIndex(24289) == YearMonth(2024, 2);
    assert FromMonthIndex(24290) == YearMonth(2024, 3);
    assert DaysInMonth(2024, 2) == 29;
  }

  /** Counterexample: from 31 March 2023, "previous month" stays in March (3 March 2023). */
  lemma PreviousFromMarch31StaysInMarch()
    ensures SetMonthAsWritten(Date(2023, 3, 31), -1) == Date(2023, 3, 3)
    ensures Shift(YearMonth(2023, 3), -1) == YearMonth(2023, 2)
  {
    assert FromMonthIndex(24277) == YearMonth(2023, 2);
    assert FromMonthIndex(24278) == YearMonth(2023, 3);
    assert DaysInMonth(2023, 2) == 28;
  }
}
