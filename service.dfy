/** ConcurrentWidgetService.java: the operations of the widget service over
    one repository. Each public method is one atomic step (the read and
    write locks are left out) and is specified by the function of
    ServiceLogic describing its effect on a snapshot of the repository. */
module Service {
  import opened Wrappers
  import opened Widgets
  import opened Filters
  import opened Pages
  import opened WidgetStore
  import opened Repository
  import opened ServiceLogic

  class ConcurrentWidgetService {
    const repository: InMemoryWidgetRepository

    constructor(repository: InMemoryWidgetRepository)
      ensures this.repository == repository
    {
      this.repository := repository;
    }

    method FindById(id: Uuid) returns (r: Option<WidgetDto>)
      ensures r == FindByIdSpec(repository.State(), id)
    {
      var widget := repository.FindById(id);
      r := if widget.Some? then Some(ConvertFromEntity(widget.value)) else None;
    }

    method FindPage(meta: Option<PageableDto>, filter: Option<Filter>) returns (r: Result<Page<WidgetDto>>)
      requires repository.Valid()
      ensures r == FindPageSpec(repository.State(), meta, filter)
    {
      ghost var s := repository.State();
      var pageable := AssertPageableIsValid(meta);
      if pageable.Fail? {
        return Err(pageable.error);
      }
      var checked := AssertFilterIsValid(filter);
      if checked.Fail? {
        return Err(checked.error);
      }
      FindPageOfValidRequest(s, meta, filter);
      var m := meta.value;
      var f := filter.value;
      var itemsToSkip := ItemsToSkip(m);
      var count := repository.Count();
      var widgets: Result<seq<Widget>>;
      if IsFilled(f) {
        widgets := repository.FindAllInAreaSortByZIndex(BottomLeftOf(f), UpperRightOf(f), itemsToSkip, m.size);
        assert widgets == PageWindow(s, f, itemsToSkip, m.size);
      } else {
        widgets := repository.FindAllSortByZIndexWindow(itemsToSkip, m.size);
        assert widgets == PageWindow(s, f, itemsToSkip, m.size);
      }
      if count <= itemsToSkip {
        r := Ok(CreateEmptyPage(m, count));
      } else {
        r := Ok(CreatePage(ToDtos(widgets.value), m, count));
      }
    }

    method FindAll() returns (r: seq<WidgetDto>)
      requires repository.Valid()
      ensures r == FindAllSpec(repository.State())
    {
      var widgets := repository.FindAllSortByZIndex();
      r := ToDtos(widgets);
    }

    method Save(dto: WidgetDto, freshId: Uuid, now: Timestamp) returns (r: Result<WidgetDto>)
      requires repository.Valid()
      modifies repository
      ensures repository.Valid()
      ensures (repository.State(), r) == SaveSpec(old(repository.State()), dto, freshId, now)
    {
      ghost var before := repository.State();
      var d := dto;
      if d.zIndex.None? {
        var highestZIndex := repository.FindHighestZIndex();
        d := d.(zIndex := Some(if highestZIndex.Some? then highestZIndex.value + 1 else 0));
      }
      assert d == dto.(zIndex := Some(TargetZIndex(before, dto)));
      ShiftAt(d.zIndex.value, None, now);
      d := d.(id := Some(freshId), modifiedAt := Some(now));
      var newest := ConvertFromDto(d, now);
      if newest.Err? {
        return Err(newest.error);
      }
      repository.SaveOrUpdate(newest.value);
      r := Ok(d);
    }

    /** `if (isNeedToShiftTailWidgetsAt(zIndex))
        repository.saveOrUpdate(getShiftedTailWidgetsAt(zIndex, excludeIndex))`,
        the step `save` and `update` share. */
    method ShiftAt(zIndex: int, excludeIndex: Option<int>, now: Timestamp)
      requires repository.Valid()
      modifies repository
      ensures repository.Valid()
      ensures repository.State() == ShiftedStore(old(repository.State()), zIndex, excludeIndex, now)
    {
      var need := IsNeedToShiftTailWidgetsAt(zIndex);
      if need {
        var shifted := GetShiftedTailWidgetsAt(zIndex, excludeIndex, now);
        repository.SaveOrUpdateAll(shifted);
      }
    }

    method Update(id: Uuid, dto: WidgetDto, now: Timestamp) returns (r: Result<WidgetDto>)
      requires repository.Valid()
      modifies repository
      ensures repository.Valid()
      ensures (repository.State(), r) == UpdateSpec(old(repository.State()), id, dto, now)
    {
      var valid := AssertUpdatedWidgetIsValid(dto);
      if valid.Fail? {
        return Err(valid.error);
      }
      var oldest := repository.FindById(id);
      var found := AssertWidgetWasFound(id, oldest);
      if found.Fail? {
        return Err(found.error);
      }
      ShiftAt(dto.zIndex.value, oldest.value.zIndex, now);
      var d := dto.(id := Some(id), modifiedAt := Some(now));
      var newest := ConvertFromDto(d, now);
      if newest.Err? {
        return Err(newest.error);
      }
      var _ := repository.Remove(oldest.value);
      repository.SaveOrUpdate(newest.value);
      r := Ok(d);
    }

    method Delete(id: Uuid) returns (r: Result<WidgetDto>)
      requires repository.Valid()
      modifies repository
      ensures repository.Valid()
      ensures (repository.State(), r) == DeleteSpec(old(repository.State()), id)
    {
      var oldest := repository.FindById(id);
      var found := AssertWidgetWasFound(id, oldest);
      if found.Fail? {
        return Err(found.error);
      }
      var removed := repository.Remove(oldest.value);
      r := Ok(ConvertFromEntity(removed.value));
    }

    method DeleteAll()
      modifies repository
      ensures repository.Valid()
      ensures repository.State() == Cleared(old(repository.State()))
    {
      repository.RemoveAll();
    }

    /** `getShiftedTailWidgetsAt(zIndex, excludeIndex)`: read the tail of the
        z view from `zIndex` up and walk it. */
    method GetShiftedTailWidgetsAt(zIndex: int, excludeIndex: Option<int>, now: Timestamp)
      returns (result: seq<Widget>)
      requires ZKeyed(repository.State().byZIndex)
      ensures result == ShiftedTail(repository.State(), zIndex, excludeIndex, now)
    {
      var allWithZIndexGreaterThanOrEqualTo := repository.FindAllSortByZIndexGreaterThanOrEqualTo(zIndex);
      result := CollectShiftedCopies(allWithZIndexGreaterThanOrEqualTo, excludeIndex, now);
    }

    /** `isNeedToShiftTailWidgetsAt`. */
    method IsNeedToShiftTailWidgetsAt(newZIndex: int) returns (r: bool)
      ensures r == NeedShift(repository.State(), newZIndex)
    {
      var ceilingZIndex := repository.FindLeastZIndexGreaterThanOrEqualTo(newZIndex);
      r := ceilingZIndex.Some? && !IsDistanceGreaterThanZero(ceilingZIndex.value, newZIndex);
    }
  }

  /** The loop of `getShiftedTailWidgetsAt`: collect a copy of each widget
      of the ordered tail one z-index higher, until a widget more than one
      above the one before it or at the excluded z-index. */
  method CollectShiftedCopies(tail: seq<Widget>, excludeIndex: Option<int>, now: Timestamp)
    returns (result: seq<Widget>)
    requires AllStored(tail)
    ensures result == ShiftedRun(tail, excludeIndex, now)
  {
    result := [];
    var i := 0;
    while i < |tail|
      invariant 0 <= i <= |tail|
      invariant forall j | 0 <= j < i :: Continues(tail, j, excludeIndex)
      invariant |result| == i && forall j | 0 <= j < i :: result[j] == ShiftedCopy(tail[j], now)
    {
      var widget := tail[i];
      // `lower(widget)`: the element just before it in the ordered tail
      var prevWidget := if i > 0 then Some(tail[i - 1]) else None;
      if (prevWidget.Some? && IsDistanceGreaterThanOne(widget.zIndex.value, prevWidget.value.zIndex.value))
         || widget.zIndex == excludeIndex
      {
        assert !Continues(tail, i, excludeIndex);
        break;
      }
      var copy := CreateCopy(widget, now);
      copy := IncrementZIndex(copy);
      result := result + [copy];
      i := i + 1;
    }
    RunLengthIsFirstBreak(tail, excludeIndex, i);
  }
}
