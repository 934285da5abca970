/** Filter.java: four optional bounds of a search rectangle. */
module Filters {
  import opened Wrappers

  datatype Filter = Filter(
    bottomLeftX: Option<int>, bottomLeftY: Option<int>,
    upperRightX: Option<int>, upperRightY: Option<int>)

  /** The no-argument constructor: every bound null. */
  function EmptyFilter(): (f: Filter)
    ensures !IsFilled(f) && IsBlank(f)
    ensures AssertFilterIsComplete(Some(f)).Pass?
  {
    Filter(None, None, None, None)
  }

  /** `isFilled`: all four bounds are present; their values are not looked at. */
  function IsFilled(f: Filter): (r: bool)
    ensures r <==> f.bottomLeftX.Some? && f.bottomLeftY.Some? && f.upperRightX.Some? && f.upperRightY.Some?
  {
    f.bottomLeftX != None && f.bottomLeftY != None && f.upperRightX != None && f.upperRightY != None
  }

  /** No bound is present. */
  predicate IsBlank(f: Filter) {
    f.bottomLeftX.None? && f.bottomLeftY.None? && f.upperRightX.None? && f.upperRightY.None?
  }

  /** The controller's check (WidgetController.assertFilterIsValid): a null
      filter throws, and so does one with some but not all bounds. */
  function AssertFilterIsComplete(f: Option<Filter>): (r: Outcome)
    ensures f.None? ==> r.Fail? && r.error.NullPointer?
    ensures f.Some? ==> (r.Pass? <==> IsFilled(f.value) || IsBlank(f.value))
    ensures r.Fail? && f.Some? ==> r.error.IllegalArgument?
  {
    if f.None? then Fail(NullPointer("filter"))
    else
      var g := f.value;
      if (g.bottomLeftX != None || g.bottomLeftY != None || g.upperRightX != None || g.upperRightY != None)
         && !IsFilled(g)
      then Fail(IllegalArgument("All filter fields must be completed simultaneously"))
      else Pass
  }

  /** A default filter is not filled; neither is one missing any bound; an
      inverted box is still filled. */
  lemma FilledExamples(a: int, b: int, c: int)
    ensures !IsFilled(EmptyFilter())
    ensures !IsFilled(Filter(Some(a), Some(b), Some(c), None))
    ensures !IsFilled(Filter(None, Some(b), Some(c), Some(a)))
    ensures !IsFilled(Filter(Some(a), None, Some(b), Some(c)))
    ensures !IsFilled(Filter(Some(a), Some(b), None, Some(c)))
    ensures IsFilled(Filter(Some(300), Some(200), Some(0), Some(0)))
  {
  }
}
