/** InMemoryWidgetRepository.java: one widget set kept in three views that
    every update changes in place. Each method is specified by the function
    of WidgetStore that describes its effect on a snapshot of the views. */
module Repository {
  import opened Wrappers
  import opened Geometry
  import opened Widgets
  import opened SpatialIndex
  import opened Ordering
  import opened WidgetStore

  class InMemoryWidgetRepository {
    var widgetMapById: map<Uuid, Widget>
    var widgetMapByZIndex: map<int, Widget>
    var widgetMapByCoordinates: Index

    /** The three views as one value. */
    function State(): Store
      reads this
    {
      Store(widgetMapById, widgetMapByZIndex, widgetMapByCoordinates)
    }

    ghost predicate Valid()
      reads this
    {
      Wf(State())
    }

    constructor()
      ensures Valid() && State() == EmptyStore()
    {
      widgetMapById := map[];
      widgetMapByZIndex := map[];
      widgetMapByCoordinates := map[];
      MirrorsEmpty();
    }

    method Count() returns (r: nat)
      ensures r == CountOf(State())
    {
      r := |widgetMapById|;
    }

    method FindHighestZIndex() returns (r: Option<int>)
      ensures r == HighestZIndexOf(State())
    {
      r := if |widgetMapByZIndex| == 0 then None else Some(Max(widgetMapByZIndex.Keys));
    }

    method FindLeastZIndexGreaterThanOrEqualTo(index: int) returns (r: Option<int>)
      ensures r == CeilingZIndexOf(State(), index)
    {
      r := CeilingZIndexOf(State(), index);
    }

    method FindById(id: Uuid) returns (r: Option<Widget>)
      ensures r == WidgetById(State(), id)
    {
      r := if id in widgetMapById then Some(widgetMapById[id]) else None;
    }

    method FindAllSortByZIndex() returns (r: seq<Widget>)
      requires Valid()
      ensures r == SortedByZIndex(State())
    {
      r := SortedByZIndex(State());
    }

    method FindAllSortByZIndexWindow(skip: int, take: int) returns (r: Result<seq<Widget>>)
      requires Valid()
      ensures r == SortedByZIndexWindow(State(), skip, take)
    {
      var all := SortedByZIndex(State());
      r := Window(all, skip, take);
    }

    method FindAllInAreaSortByZIndex(bottomLeft: Point, upperRight: Point, skip: int, take: int)
      returns (r: Result<seq<Widget>>)
      requires Valid()
      ensures r == InAreaSortedByZIndex(State(), bottomLeft, upperRight, skip, take)
    {
      var filterRectangle := FromCorners(Some(bottomLeft), Some(upperRight));
      if filterRectangle.Err? {
        return Err(filterRectangle.error);
      }
      var rect := filterRectangle.value;
      var filteredWidgets := Search(widgetMapByCoordinates, rect.bottomLeft, rect.upperRight);
      SearchMatchesScan(widgetMapByCoordinates, widgetMapById, rect.bottomLeft, rect.upperRight);
      AreaScanDistinct(widgetMapById, rect.bottomLeft, rect.upperRight);
      r := Window(SortByKey(filteredWidgets), skip, take);
    }

    method FindAllSortByZIndexGreaterThanOrEqualTo(index: int) returns (r: seq<Widget>)
      ensures r == TailFrom(State(), index)
    {
      r := TailFrom(State(), index);
    }

    method SaveOrUpdate(widget: Widget)
      requires Valid() && Stored(widget)
      modifies this
      ensures Valid() && State() == Saved(old(State()), widget)
    {
      ghost var before := State();
      var id := widget.id.value;
      var removed := if id in widgetMapById then Some(widgetMapById[id]) else None;
      widgetMapById := widgetMapById[id := widget];
      widgetMapByZIndex := widgetMapByZIndex[widget.zIndex.value := widget];
      if removed.Some? {
        RemoveInRectangleMap(removed.value);
      }
      AddToRectangleMap(widget);
      assert State() == Saved(before, widget);
    }

    method AddToRectangleMap(widget: Widget)
      requires Stored(widget)
      modifies this
      ensures widgetMapById == old(widgetMapById) && widgetMapByZIndex == old(widgetMapByZIndex)
      ensures widgetMapByCoordinates == AddToIndex(old(widgetMapByCoordinates), widget)
    {
      var b := BoxOf(widget);
      var idx := widgetMapByCoordinates;
      // each `putIfAbsent` leaves a present level as it is and adds an empty one
      var m1 := if b.blx in idx then idx[b.blx] else map[];
      var m2 := if b.bly in m1 then m1[b.bly] else map[];
      var m3 := if b.urx in m2 then m2[b.urx] else map[];
      var leaf := if b.ury in m3 then m3[b.ury] else map[];
      // `TreeSet.add` keeps an element the comparator finds equal
      if KeyOf(widget) !in leaf {
        leaf := leaf[KeyOf(widget) := widget];
      }
      widgetMapByCoordinates := idx[b.blx := m1[b.bly := m2[b.urx := m3[b.ury := leaf]]]];
    }

    method SaveOrUpdateAll(widgets: seq<Widget>)
      requires Valid() && forall i | 0 <= i < |widgets| :: Stored(widgets[i])
      modifies this
      ensures Valid() && State() == SavedAll(old(State()), widgets)
    {
      for i := 0 to |widgets|
        invariant Valid()
        invariant State() == SavedAll(old(State()), widgets[..i])
      {
        SavedAllPrefix(old(State()), widgets, i);
        SaveOrUpdate(widgets[i]);
      }
      assert widgets[..|widgets|] == widgets;
    }

    method Remove(widget: Widget) returns (removed: Option<Widget>)
      requires Valid() && Stored(widget)
      modifies this
      ensures Valid() && (State(), removed) == Removed(old(State()), widget)
    {
      ghost var before := State();
      var id := widget.id.value;
      removed := if id in widgetMapById then Some(widgetMapById[id]) else None;
      widgetMapById := widgetMapById - {id};
      widgetMapByZIndex := widgetMapByZIndex - {widget.zIndex.value};
      if removed.Some? {
        RemoveInRectangleMap(removed.value);
      } else {
        assert widgetMapById == before.byId;
      }
      assert (State(), removed) == Removed(before, widget);
    }

    method RemoveInRectangleMap(widget: Widget)
      requires Stored(widget)
      modifies this
      ensures widgetMapById == old(widgetMapById) && widgetMapByZIndex == old(widgetMapByZIndex)
      ensures widgetMapByCoordinates == RemoveFromIndex(old(widgetMapByCoordinates), widget)
    {
      var b := BoxOf(widget);
      if !HasLeaf(widgetMapByCoordinates, b) {
        return;
      }
      var m1 := widgetMapByCoordinates[b.blx];
      var m2 := m1[b.bly];
      var m3 := m2[b.urx];
      var leaf: Bucket := m3[b.ury];
      widgetMapByCoordinates := widgetMapByCoordinates[b.blx := m1[b.bly := m2[b.urx := m3[b.ury := leaf - {KeyOf(widget)}]]]];
    }

    method RemoveAll()
      modifies this
      ensures Valid() && State() == Cleared(old(State()))
    {
      widgetMapById := map[];
      widgetMapByZIndex := map[];
      widgetMapByCoordinates := map[];
      MirrorsEmpty();
    }
  }
}
