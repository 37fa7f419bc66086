/** `updateCalendarDisplay`: every day cell loses its four highlight classes and
    then gets `selected start`, `selected end` and `in-range` from the current
    selection. Because the old highlight is removed first, the result depends
    only on the current selection (`RestyleOverrides`), so reapplying it changes
    nothing (`RestyleIdempotent`). */
module Highlight {
  import opened Wrappers
  import opened Dates
  import opened Selection
  import opened Grid

  /** The classes removed before each recomputation. */
  const HighlightClasses: set<CssClass> := {Selected, Start, End, InRange}

  /** The highlight classes a day cell of date `d` receives. */
  function Classify(s: Selection, d: Date): (c: set<CssClass>)
    ensures c <= HighlightClasses
    ensures CalendarDay !in c
    ensures InRange in c ==> Start !in c && End !in c && Selected !in c
    ensures Inv(s) ==> !(Start in c && End in c)
  {
    (if s.start == Some(d) then {Selected, Start} else {}) +
    (if s.end == Some(d) then {Selected, End} else {}) +
    (if s.start.Some? && s.end.Some? && Before(s.start.value, d) && Before(d, s.end.value)
     then {InRange} else {})
  }

  /** A date is tagged `start` iff it is the start, `end` iff it is the end, `selected`
      iff it is one of the two, and `in-range` iff both are set and it lies strictly
      between them. */
  lemma ClassifyMeaning(s: Selection, d: Date)
    ensures Start in Classify(s, d) <==> s.start == Some(d)
    ensures End in Classify(s, d) <==> s.end == Some(d)
    ensures Selected in Classify(s, d) <==> s.start == Some(d) || s.end == Some(d)
    ensures InRange in Classify(s, d) <==>
              s.start.Some? && s.end.Some? && Before(s.start.value, d) && Before(d, s.end.value)
  {
  }

  /** One iteration of the `forEach`: only day cells are touched. */
  function RestyleCell(c: Cell, s: Selection): (r: Cell)
    ensures r.Day? <==> c.Day?
    ensures !c.Day? ==> r == c
    ensures c.Day? ==> r.number == c.number && r.date == c.date
    ensures c.Day? ==> r.classes * HighlightClasses == Classify(s, c.date)
    ensures c.Day? ==> r.classes - HighlightClasses == c.classes - HighlightClasses
  {
    match c
    case Day(n, d, classes) => Day(n, d, classes - HighlightClasses + Classify(s, d))
    case _ => c
  }

  function Restyled(cells: seq<Cell>, s: Selection): (r: seq<Cell>)
    ensures |r| == |cells|
    ensures forall i :: 0 <= i < |r| ==> (r[i].Day? <==> cells[i].Day?)
    ensures forall i :: 0 <= i < |r| && !cells[i].Day? ==> r[i] == cells[i]
    ensures forall i :: 0 <= i < |r| && cells[i].Day? ==>
              r[i].date == cells[i].date && r[i].classes * HighlightClasses == Classify(s, cells[i].date)
  {
    seq(|cells|, i requires 0 <= i < |cells| => RestyleCell(cells[i], s))
  }

  /** Restyling forgets any earlier highlight: only the latest selection matters. */
  lemma RestyleOverrides(cells: seq<Cell>, s1: Selection, s2: Selection)
    ensures Restyled(Restyled(cells, s1), s2) == Restyled(cells, s2)
  {
    forall i | 0 <= i < |cells|
      ensures Restyled(Restyled(cells, s1), s2)[i] == Restyled(cells, s2)[i]
    {
      var c := cells[i];
      if c.Day? {
        var once := c.classes - HighlightClasses + Classify(s1, c.date);
        assert once - HighlightClasses == c.classes - HighlightClasses;
      }
    }
  }

  /** Reapplying the classification with an unchanged selection changes nothing. */
  lemma RestyleIdempotent(cells: seq<Cell>, s: Selection)
    ensures Restyled(Restyled(cells, s), s) == Restyled(cells, s)
  {
    RestyleOverrides(cells, s, s);
  }

  /** The worked example: with the range 10..15 March 2024, the 12th is in range,
      the 10th is the start, the 15th the end, and the 20th is not highlighted. */
  lemma RangeExample()
    ensures var s := Selection(Some(Date(2024, 3, 10)), Some(Date(2024, 3, 15)));
      && Classify(s, Date(2024, 3, 12)) == {InRange}
      && Classify(s, Date(2024, 3, 10)) == {Selected, Start}
      && Classify(s, Date(2024, 3, 15)) == {Selected, End}
      && Classify(s, Date(2024, 3, 20)) == {}
  {
  }
}
