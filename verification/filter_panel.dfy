/**
 * The recruiter dashboard's filter panel: the experience-level toggle, the
 * date-range handlers and `clearFilters`.  Each handler computes the new value
 * of one filter field; `Dashboard.handleFilterChange` stores it.
 */
module FilterPanel {
  import opened Wrappers
  import opened Seqs

  const All: string := "all"

  /** A date bound, as the milliseconds of the chosen day (the handler's `new Date(value)`). */
  datatype DateRange = DateRange(start: Option<int>, end: Option<int>)

  /** `FilterOptions`; `ratingMin` is one of the rating options (0, 4, 4.5, 5), hence a `real`. */
  datatype Filters = Filters(experienceLevel: seq<string>, searchQuery: string, ratingMin: real, dateRange: DateRange)

  /** The filters the dashboard starts with and `clearFilters` restores. */
  const Cleared: Filters := Filters([All], "", 0.0, DateRange(None, None))

  /** A selection the toggle can produce: `["all"]`, or a non-empty list without "all". */
  predicate WellFormedSelection(levels: seq<string>) {
    levels == [All] || (levels != [] && All !in levels)
  }

  /** `handleExperienceLevelChange(value)` (lines 16-40): the new selection. */
  function ToggleExperience(current: seq<string>, value: string): (r: seq<string>)
    ensures WellFormedSelection(r)
    ensures value == All ==> r == [All]
  {
    if value == All then [All]
    else
      var withoutAll := Remove(current, All);
      if value in withoutAll then
        var rest := Remove(withoutAll, value);
        if rest == [] then [All] else rest
      else withoutAll + [value]
  }

  /** `e.target.value ? new Date(e.target.value) : null`; `parseDate` reads a date field. */
  function DateInput(value: string, parseDate: string -> int): Option<int> {
    if value == "" then None else Some(parseDate(value))
  }

  /** `handleStartDateChange` (lines 50-56): the new date range. */
  function StartDateChanged(range: DateRange, value: string, parseDate: string -> int): DateRange {
    range.(start := DateInput(value, parseDate))
  }

  /** `handleEndDateChange` (lines 58-64): the new date range. */
  function EndDateChanged(range: DateRange, value: string, parseDate: string -> int): DateRange {
    range.(end := DateInput(value, parseDate))
  }

  /** `clearFilters` (lines 66-71): the four field updates, applied in order. */
  function ClearFilters(f: Filters): (r: Filters)
    ensures r == Cleared
  {
    f.(experienceLevel := [All]).(searchQuery := "").(ratingMin := 0.0).(dateRange := DateRange(None, None))
  }

  // ---------------------------------------------------------------------------
  // Properties
  // ---------------------------------------------------------------------------

  /**
   * A specific level is removed when it was selected (falling back to
   * `["all"]` when nothing is left) and appended at the end otherwise;
   * "all" is dropped from the selection either way.
   */
  lemma ToggleSpecific(current: seq<string>, value: string)
    requires value != All
    ensures var withoutAll := Remove(current, All);
      var r := ToggleExperience(current, value);
      (value in withoutAll ==> value !in r && (r == [All] || r == Remove(withoutAll, value))) &&
      (value !in withoutAll ==> r == withoutAll + [value])
  {
  }

  /** The toggle never introduces a duplicate. */
  lemma ToggleNoDuplicates(current: seq<string>, value: string)
    requires NoDuplicates(current)
    ensures NoDuplicates(ToggleExperience(current, value))
  {
    if value != All {
      var withoutAll := Remove(current, All);
      RemoveNoDuplicates(current, All);
      if value in withoutAll {
        RemoveNoDuplicates(withoutAll, value);
      } else {
        var r := withoutAll + [value];
        forall i, j | 0 <= i < j < |r| ensures r[i] != r[j] {
          if j == |withoutAll| {
            assert r[i] in withoutAll;
          }
        }
      }
    }
  }

  /** Toggling an unselected specific level twice restores a well-formed selection. */
  lemma ToggleTwiceRestores(current: seq<string>, value: string)
    requires WellFormedSelection(current) && value != All && value !in current
    ensures ToggleExperience(ToggleExperience(current, value), value) == current
  {
    if current == [All] {
      ToggleFromAllTwice(value);
    } else {
      ToggleSpecificTwice(current, value);
    }
  }

  /** From `["all"]`, a level is selected alone and then deselected back to `["all"]`. */
  lemma ToggleFromAllTwice(value: string)
    requires value != All
    ensures ToggleExperience([All], value) == [value]
    ensures ToggleExperience([value], value) == [All]
  {
    assert Remove([All], All) == [];
    assert [] + [value] == [value];
    assert Remove([value], All) == [value];
    assert Remove([value], value) == [];
  }

  /** Without "all", a new level is appended and then removed again. */
  lemma ToggleSpecificTwice(current: seq<string>, value: string)
    requires All !in current && value != All && value !in current
    ensures ToggleExperience(current, value) == current + [value]
    ensures current != [] ==> ToggleExperience(current + [value], value) == current
  {
    RemoveAbsent(current, All);
    var once := current + [value];
    assert All !in once;
    RemoveAbsent(once, All);
    RemoveAppended(current, value);
  }

  /** Each date handler replaces its own bound and keeps the other. */
  lemma DateHandlersIndependent(range: DateRange, a: string, b: string, parseDate: string -> int)
    ensures StartDateChanged(range, a, parseDate).end == range.end
    ensures EndDateChanged(range, b, parseDate).start == range.start
    ensures EndDateChanged(StartDateChanged(range, a, parseDate), b, parseDate) ==
      StartDateChanged(EndDateChanged(range, b, parseDate), a, parseDate)
    ensures StartDateChanged(range, "", parseDate).start == None
  {
  }
}
