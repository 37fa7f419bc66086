/** The picker's selection: the two slots `selectedStartDate` and `selectedEndDate`,
    changed by a click on a day cell and by the reset button.

    `Click` is the click handler's update of the two slots and `Cleared` that of
    `resetSelection`; the class in module `Picker` applies them to its fields.
    Seen from outside this is a three-phase machine, Empty, StartOnly and Range
    (`PhaseOf`), and `ClickFollowsPhaseMachine` relates the handler's branches to it. */
module Selection {
  import opened Wrappers
  import opened Dates

  datatype Selection = Selection(start: Option<Date>, end: Option<Date>)

  datatype Phase = Empty | StartOnly | Range

  /** An end date is only ever present together with an earlier start date. */
  predicate Inv(s: Selection) {
    s.end.Some? ==> s.start.Some? && Before(s.start.value, s.end.value)
  }

  /** Both slots empty: the state on page load and after a reset. */
  function Cleared(): (s: Selection)
    ensures Inv(s)
    ensures s.start.None? && s.end.None?
  {
    Selection(None, None)
  }

  function PhaseOf(s: Selection): Phase {
    if s.start.None? then Empty
    else if s.end.None? then StartOnly
    else Range
  }

  /** The click handler: with no start, with a date before the start, or with an end
      already chosen, the clicked date starts a new selection; a date after the start
      becomes the end; the start date itself matches neither branch and changes nothing. */
  function Click(s: Selection, d: Date): (r: Selection)
    ensures Inv(r)
    ensures r.start.Some?
    ensures r.start == Some(d) || r.start == s.start
    ensures r.end.Some? ==> r.end == Some(d) && r.start == s.start
  {
    if s.start.None? || Before(d, s.start.value) || s.end.Some? then
      Selection(Some(d), None)
    else if Before(s.start.value, d) then
      Selection(s.start, Some(d))
    else
      s
  }

  /** The reset button is disabled exactly when neither date is selected. */
  predicate ResetDisabled(s: Selection): (disabled: bool)
    ensures Inv(s) ==> (disabled <==> PhaseOf(s) == Empty)
  {
    s.start.None? && s.end.None?
  }

  // ---------------------------------------------------------------------
  // The three branches of the click handler

  lemma ClickRestarts(s: Selection, d: Date)
    requires s.start.None? || Before(d, s.start.value) || s.end.Some?
    ensures Click(s, d) == Selection(Some(d), None)
  {
  }

  lemma ClickSetsEnd(s: Selection, d: Date)
    requires s.start.Some? && s.end.None? && Before(s.start.value, d)
    ensures Click(s, d) == Selection(s.start, Some(d))
  {
  }

  lemma ClickOnStartIsNoOp(s: Selection, d: Date)
    requires s.start == Some(d) && s.end.None?
    ensures Click(s, d) == s
  {
    BeforeStrictTotal(d, d, d);
  }

  /** The handler implements the three-phase machine: from Empty and from Range every
      click leads to StartOnly at the clicked date; from StartOnly at S a later date
      leads to Range from S to it, and any other date to StartOnly at that date
      (for the date S itself that is the unchanged state). */
  lemma ClickFollowsPhaseMachine(s: Selection, d: Date)
    requires Inv(s)
    ensures PhaseOf(s) == Empty ==> Click(s, d) == Selection(Some(d), None)
    ensures PhaseOf(s) == Range ==> Click(s, d) == Selection(Some(d), None)
    ensures PhaseOf(s) == StartOnly && Before(s.start.value, d) ==>
              Click(s, d) == Selection(s.start, Some(d)) && PhaseOf(Click(s, d)) == Range
    ensures PhaseOf(s) == StartOnly && !Before(s.start.value, d) ==>
              Click(s, d) == Selection(Some(d), None) && PhaseOf(Click(s, d)) == StartOnly
  {
    if PhaseOf(s) == StartOnly && !Before(s.start.value, d) && !Before(d, s.start.value) {
      BeforeStrictTotal(d, s.start.value, d);
    }
  }

  /** Under the invariant the reset button is disabled exactly in phase Empty, and it
      is disabled right after a reset. */
  lemma ResetDisabledIffEmpty(s: Selection)
    requires Inv(s)
    ensures ResetDisabled(s) <==> PhaseOf(s) == Empty
    ensures ResetDisabled(Cleared())
  {
  }

  // ---------------------------------------------------------------------
  // Any sequence of user actions keeps the invariant

  datatype Action = ClickOn(date: Date) | Reset

  function Apply(s: Selection, a: Action): Selection {
    match a
    case ClickOn(d) => Click(s, d)
    case Reset => Cleared()
  }

  function Run(s: Selection, actions: seq<Action>): Selection
    decreases |actions|
  {
    if actions == [] then s else Run(Apply(s, actions[0]), actions[1..])
  }

  /** Starting from a state that satisfies the invariant, every sequence of clicks and
      resets ends in one that does, and after the first action the phase is never Empty
      unless that action sequence ends with a reset. */
  lemma {:induction false} RunKeepsInv(s: Selection, actions: seq<Action>)
    requires Inv(s)
    ensures Inv(Run(s, actions))
    ensures actions != [] && actions[|actions| - 1].ClickOn? ==> PhaseOf(Run(s, actions)) != Empty
    decreases |actions|
  {
    if actions != [] {
      RunKeepsInv(Apply(s, actions[0]), actions[1..]);
      if |actions| > 1 {
        assert actions[1..][|actions[1..]| - 1] == actions[|actions| - 1];
      }
    }
  }

  /** The worked example: clicking 10 March 2024 and then 15 March 2024 selects that range. */
  lemma TwoClicksExample()
    ensures Click(Cleared(), Date(2024, 3, 10)) == Selection(Some(Date(2024, 3, 10)), None)
    ensures Click(Click(Cleared(), Date(2024, 3, 10)), Date(2024, 3, 15))
            == Selection(Some(Date(2024, 3, 10)), Some(Date(2024, 3, 15)))
  {
  }
}
