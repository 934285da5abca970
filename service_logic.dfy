/** ConcurrentWidgetService.java as functions on a store snapshot: the
    validators, the converters, the z-index shift and the effect of each
    public operation. The service class is specified by these functions.
    Locks are not modelled: each operation is one atomic step. The clock
    reading and the fresh UUID are parameters. */
module ServiceLogic {
  import opened Wrappers
  import opened Geometry
  import opened Widgets
  import opened Filters
  import opened Pages
  import opened SpatialIndex
  import opened WidgetStore

  // Distances

  /** `getDistance`: `Math.abs(f - s)`. */
  function Distance(f: int, s: int): (d: nat)
    ensures d == f - s || d == s - f
  {
    if f >= s then f - s else s - f
  }

  /** `isDistanceGreaterThanOne`. */
  function IsDistanceGreaterThanOne(f: int, s: int): (r: bool)
    ensures r <==> f > s + 1 || s > f + 1
  {
    Distance(f, s) > 1
  }

  /** `isDistanceGreaterThanZero`. */
  function IsDistanceGreaterThanZero(f: int, s: int): (r: bool)
    ensures r <==> f != s
  {
    Distance(f, s) > 0
  }

  // Validators

  /** `assertWidgetWasFound`: a missing widget throws NoSuchElementException. */
  function AssertWidgetWasFound(id: Uuid, w: Option<Widget>): (r: Outcome)
    ensures r.Pass? <==> w.Some?
    ensures r.Fail? ==> r.error.NoSuchElement?
  {
    if w.None? then Fail(NoSuchElement("Widget was not found")) else Pass
  }

  /** `assertUpdatedWidgetIsValid`: an update must name its z-index. */
  function AssertUpdatedWidgetIsValid(dto: WidgetDto): (r: Outcome)
    ensures r.Pass? <==> dto.zIndex.Some?
    ensures r.Fail? ==> r.error.IllegalArgument?
  {
    if dto.zIndex.None? then Fail(IllegalArgument("Field `zIndex` must be not null")) else Pass
  }

  /** `assertPageableIsValid`: a null request throws NullPointerException, a
      page or size that is not positive IllegalArgumentException. */
  function AssertPageableIsValid(meta: Option<PageableDto>): (r: Outcome)
    ensures r.Pass? <==> meta.Some? && meta.value.page > 0 && meta.value.size > 0
    ensures meta.None? ==> r.Fail? && r.error.NullPointer?
    ensures meta.Some? && r.Fail? ==> r.error.IllegalArgument?
  {
    if meta.None? then Fail(NullPointer("Param `pageableDto` must be not null"))
    else if meta.value.page <= 0 then Fail(IllegalArgument("Field `page` must be greater than 0"))
    else if meta.value.size <= 0 then Fail(IllegalArgument("Field `size` must be greater than 0"))
    else Pass
  }

  /** Where both bounds of an axis are present, the lower one is below the upper one. */
  predicate OrderedBounds(lo: Option<int>, hi: Option<int>) {
    lo.Some? && hi.Some? ==> lo.value < hi.value
  }

  /** `assertFilterIsValid`: a null filter throws NullPointerException; on
      each axis whose two bounds are both present, a lower bound that is not
      below the upper one throws IllegalArgumentException. */
  function AssertFilterIsValid(filter: Option<Filter>): (r: Outcome)
    ensures r.Pass? <==> (&& filter.Some?
                          && OrderedBounds(filter.value.bottomLeftX, filter.value.upperRightX)
                          && OrderedBounds(filter.value.bottomLeftY, filter.value.upperRightY))
    ensures filter.None? ==> r.Fail? && r.error.NullPointer?
    ensures filter.Some? && r.Fail? ==> r.error.IllegalArgument?
  {
    if filter.None? then Fail(NullPointer("Param `filter` must be not null"))
    else
      var f := filter.value;
      if f.bottomLeftX != None && f.upperRightX != None && f.bottomLeftX.value >= f.upperRightX.value then
        Fail(IllegalArgument("Field `bottomLeftX` must be less than `upperRightX` in param `filter`"))
      else if f.bottomLeftY != None && f.upperRightY != None && f.bottomLeftY.value >= f.upperRightY.value then
        Fail(IllegalArgument("Field `bottomLeftY` must be less than `upperRightY` in param `filter`"))
      else Pass
  }

  // Converters

  /** `convertFromDto`: the six-argument widget constructor applied to the
      DTO's fields, with the DTO's height in the width slot and its width
      in the height slot. */
  function ConvertFromDto(dto: WidgetDto, now: Timestamp): (r: Result<Widget>)
    ensures r.Ok? <==> dto.width > 0 && dto.height > 0
    ensures r.Err? ==> r.error.IllegalArgument?
    ensures r.Ok? ==> (&& r.value.id == dto.id && r.value.x == dto.x && r.value.y == dto.y
                       && r.value.zIndex == dto.zIndex && r.value.modifiedAt == Some(now)
                       && r.value.width == dto.height && r.value.height == dto.width)
  {
    NewWidget(dto.id, dto.x, dto.y, dto.zIndex, dto.height, dto.width, now)
  }

  /** `convertFromEntity`: the same DTO `WidgetDto.fromEntity` builds. */
  function ConvertFromEntity(entity: Widget): (r: WidgetDto)
    ensures r == FromEntity(entity)
  {
    WidgetDto(entity.id, entity.x, entity.y, entity.zIndex, entity.width, entity.height, entity.modifiedAt)
  }

  /** `convertFromEntity` over a list. */
  function ToDtos(ws: seq<Widget>): (r: seq<WidgetDto>)
    ensures |r| == |ws| && forall i | 0 <= i < |ws| :: r[i] == ConvertFromEntity(ws[i])
  {
    seq(|ws|, i requires 0 <= i < |ws| => ConvertFromEntity(ws[i]))
  }

  /** `createCopy`: a new widget with the same id, centre, z-index and sides,
      stamped with the clock reading by the six-argument constructor. */
  function CreateCopy(self: Widget, now: Timestamp): (r: Widget)
    ensures r == Copy(self).(modifiedAt := Some(now))
  {
    Widget(self.id, self.x, self.y, self.zIndex, self.width, self.height, Some(now))
  }

  /** A copy moved one z-index up: the body of the shift loop. */
  function ShiftedCopy(w: Widget, now: Timestamp): (r: Widget)
    requires w.zIndex.Some?
    ensures r.zIndex == Some(w.zIndex.value + 1) && r.modifiedAt == Some(now)
    ensures r.(zIndex := w.zIndex, modifiedAt := w.modifiedAt) == w
  {
    IncrementZIndex(CreateCopy(w, now))
  }

  // The shift

  predicate AllStored(ws: seq<Widget>) {
    forall i | 0 <= i < |ws| :: Stored(ws[i])
  }

  /** The loop of `getShiftedTailWidgetsAt` goes on past position `i` of the
      tail: the widget is at most one above the one before it (`lower` in
      the tail) and is not at the excluded z-index. */
  predicate Continues(tail: seq<Widget>, i: int, excludeIndex: Option<int>)
    requires AllStored(tail) && 0 <= i < |tail|
  {
    !((i > 0 && IsDistanceGreaterThanOne(tail[i].zIndex.value, tail[i - 1].zIndex.value))
      || tail[i].zIndex == excludeIndex)
  }

  /** Where the loop breaks when it has reached position `i`. */
  function RunLengthFrom(tail: seq<Widget>, excludeIndex: Option<int>, i: nat): (n: nat)
    requires AllStored(tail) && i <= |tail|
    ensures i <= n <= |tail|
    ensures forall j | i <= j < n :: Continues(tail, j, excludeIndex)
    ensures n < |tail| ==> !Continues(tail, n, excludeIndex)
    decreases |tail| - i
  {
    if i == |tail| || !Continues(tail, i, excludeIndex) then i
    else RunLengthFrom(tail, excludeIndex, i + 1)
  }

  /** The number of widgets the loop copies: the length of the longest
      prefix whose every position continues. */
  function RunLength(tail: seq<Widget>, excludeIndex: Option<int>): (n: nat)
    requires AllStored(tail)
    ensures n <= |tail|
    ensures forall j | 0 <= j < n :: Continues(tail, j, excludeIndex)
    ensures n < |tail| ==> !Continues(tail, n, excludeIndex)
  {
    RunLengthFrom(tail, excludeIndex, 0)
  }

  /** The loop stops at the first position that does not continue, and
      only there: a position `i` up to which every position continues and at
      which the tail ends or the loop breaks is the run length. */
  lemma RunLengthIsFirstBreak(tail: seq<Widget>, excludeIndex: Option<int>, i: nat)
    requires AllStored(tail) && i <= |tail|
    requires forall j | 0 <= j < i :: Continues(tail, j, excludeIndex)
    requires i == |tail| || !Continues(tail, i, excludeIndex)
    ensures RunLength(tail, excludeIndex) == i
  {
    var n := RunLength(tail, excludeIndex);
    if n < i {
      assert false;
    } else if n > i {
      assert false;
    }
  }

  /** The copies the loop collects, in the order it adds them. */
  function ShiftedRun(tail: seq<Widget>, excludeIndex: Option<int>, now: Timestamp): (r: seq<Widget>)
    requires AllStored(tail)
    ensures |r| == RunLength(tail, excludeIndex) && AllStored(r)
    ensures forall i | 0 <= i < |r| :: r[i] == ShiftedCopy(tail[i], now)
  {
    var n := RunLength(tail, excludeIndex);
    seq(n, i requires 0 <= i < n => ShiftedCopy(tail[i], now))
  }

  /** `getShiftedTailWidgetsAt(zIndex, excludeIndex)`. */
  function ShiftedTail(s: Store, zIndex: int, excludeIndex: Option<int>, now: Timestamp): (r: seq<Widget>)
    requires ZKeyed(s.byZIndex)
    ensures AllStored(r)
  {
    ShiftedRun(TailFrom(s, zIndex), excludeIndex, now)
  }

  /** `isNeedToShiftTailWidgetsAt`: the ceiling z-index exists and is at
      distance 0 from the target, which is to say the target is taken. */
  function NeedShift(s: Store, newZIndex: int): (r: bool)
    ensures r <==> newZIndex in s.byZIndex
  {
    var ceiling := CeilingZIndexOf(s, newZIndex);
    ceiling.Some? && !IsDistanceGreaterThanZero(ceiling.value, newZIndex)
  }

  /** The store after `if (isNeedToShiftTailWidgetsAt(z))
      repository.saveOrUpdate(getShiftedTailWidgetsAt(z, excludeIndex))`. */
  function ShiftedStore(s: Store, zIndex: int, excludeIndex: Option<int>, now: Timestamp): (r: Store)
    requires Keyed(s.byId) && ZKeyed(s.byZIndex)
    ensures Keyed(r.byId) && ZKeyed(r.byZIndex)
    ensures Wf(s) ==> Wf(r)
    ensures !(zIndex in s.byZIndex) ==> r == s
  {
    if NeedShift(s, zIndex) then
      SavedAllKeepsShape(s, ShiftedTail(s, zIndex, excludeIndex, now));
      SavedAll(s, ShiftedTail(s, zIndex, excludeIndex, now))
    else s
  }

  // Operations

  /** `findById`: the stored widget as a DTO, or null. */
  function FindByIdSpec(s: Store, id: Uuid): (r: Option<WidgetDto>)
    ensures r.Some? <==> id in s.byId
    ensures r.Some? ==> r.value == FromEntity(s.byId[id])
  {
    var w := WidgetById(s, id);
    if w.Some? then Some(ConvertFromEntity(w.value)) else None
  }

  /** `findAll`: every widget of the z view as a DTO, in ascending z-index order. */
  function FindAllSpec(s: Store): (r: seq<WidgetDto>)
    requires Wf(s)
    ensures |r| == |s.byZIndex|
    ensures forall i | 0 <= i < |r| :: r[i] == FromEntity(SortedByZIndex(s)[i])
  {
    ToDtos(SortedByZIndex(s))
  }

  /** The query rectangle of a filled filter. */
  function BottomLeftOf(f: Filter): Point
    requires IsFilled(f)
  {
    Point(f.bottomLeftX.value, f.bottomLeftY.value)
  }

  function UpperRightOf(f: Filter): Point
    requires IsFilled(f)
  {
    Point(f.upperRightX.value, f.upperRightY.value)
  }

  /** A whole number of positive sizes divides back exactly. */
  lemma MultipleDivMod(q: int, b: int)
    ensures b > 0 ==> (q * b) % b == 0 && (q * b) / b == q
  {
    if b > 0 {
      var d, m := (q * b) / b, (q * b) % b;
      assert d * b + m == q * b && 0 <= m < b;
      assert (q - d) * b == m;
      if q - d >= 1 {
        assert false;
      } else if q - d <= -1 {
        assert false;
      }
    }
  }

  /** The number of widgets that come before the requested page: the
      widgets of page - 1 whole pages. */
  function ItemsToSkip(meta: PageableDto): (r: int)
    ensures meta.page >= 1 && meta.size >= 0 ==> r >= 0
    ensures meta.size > 0 ==> r % meta.size == 0 && r / meta.size == meta.page - 1
  {
    MultipleDivMod(meta.page - 1, meta.size);
    (meta.page - 1) * meta.size
  }

  /** The widgets `findPage` reads for a validated request: the window of
      the area query when the filter is filled, of the whole z view
      otherwise. Neither query can throw once the request is validated. */
  function PageWindow(s: Store, f: Filter, skip: int, take: int): (r: Result<seq<Widget>>)
    requires Wf(s) && skip >= 0 && take >= 0
    requires OrderedBounds(f.bottomLeftX, f.upperRightX) && OrderedBounds(f.bottomLeftY, f.upperRightY)
    ensures r.Ok? && |r.value| <= take
    ensures !IsFilled(f) ==> r == SortedByZIndexWindow(s, skip, take)
    ensures IsFilled(f) ==> r == InAreaSortedByZIndex(s, BottomLeftOf(f), UpperRightOf(f), skip, take)
  {
    if IsFilled(f) then InAreaSortedByZIndex(s, BottomLeftOf(f), UpperRightOf(f), skip, take)
    else SortedByZIndexWindow(s, skip, take)
  }

  /** `findPage`: validate the request and the filter, read the count and
      the window, and answer an empty page when the whole-store count does
      not reach past the skipped items. */
  function FindPageSpec(s: Store, meta: Option<PageableDto>, filter: Option<Filter>): (r: Result<Page<WidgetDto>>)
    requires Wf(s)
    ensures r.Ok? <==> AssertPageableIsValid(meta).Pass? && AssertFilterIsValid(filter).Pass?
    ensures r.Err? ==> r.error == (if AssertPageableIsValid(meta).Fail? then AssertPageableIsValid(meta).error
                                   else AssertFilterIsValid(filter).error)
    ensures r.Ok? ==> (&& r.value.number == meta.value.page && r.value.size == meta.value.size
                       && r.value.totalItems == CountOf(s)
                       && |r.value.items| <= meta.value.size
                       && (CountOf(s) <= ItemsToSkip(meta.value) ==> r.value.items == []))
    ensures r.Ok? && ItemsToSkip(meta.value) < CountOf(s) ==>
      r.value.items == ToDtos(PageWindow(s, filter.value, ItemsToSkip(meta.value), meta.value.size).value)
  {
    var pageable := AssertPageableIsValid(meta);
    if pageable.Fail? then Err(pageable.error)
    else
      var checked := AssertFilterIsValid(filter);
      if checked.Fail? then Err(checked.error)
      else
        var m := meta.value;
        var skip := ItemsToSkip(m);
        assert skip >= 0;
        var count := CountOf(s);
        var widgets := PageWindow(s, filter.value, skip, m.size);
        if count <= skip then Ok(CreateEmptyPage(m, count))
        else Ok(CreatePage(ToDtos(widgets.value), m, count))
  }

  /** A validated request is answered with the window `PageWindow` reads. */
  lemma FindPageOfValidRequest(s: Store, meta: Option<PageableDto>, filter: Option<Filter>)
    requires Wf(s) && AssertPageableIsValid(meta).Pass? && AssertFilterIsValid(filter).Pass?
    ensures FindPageSpec(s, meta, filter) ==
      var widgets := PageWindow(s, filter.value, ItemsToSkip(meta.value), meta.value.size);
      if CountOf(s) <= ItemsToSkip(meta.value) then Ok(CreateEmptyPage(meta.value, CountOf(s)))
      else Ok(CreatePage(ToDtos(widgets.value), meta.value, CountOf(s)))
  {
  }

  /** The number of widgets on a page `findPage` answers: at most the
      requested size, none past the end of the store, and otherwise as many
      as the window read. */
  lemma FoundPageItemCount(s: Store, meta: Option<PageableDto>, filter: Option<Filter>)
    requires Wf(s)
    ensures var r := FindPageSpec(s, meta, filter);
            r.Ok? ==> && ItemCount(r.value) <= meta.value.size
                      && (CountOf(s) <= ItemsToSkip(meta.value) ==> ItemCount(r.value) == 0)
                      && (ItemsToSkip(meta.value) < CountOf(s) ==>
                            ItemCount(r.value) == |PageWindow(s, filter.value, ItemsToSkip(meta.value), meta.value.size).value|)
  {
  }

  /** On agreeing views a page without area filter holds exactly the
      widgets left after the skipped ones, at most the page size; a page
      with one holds the same share of the widgets in the area. */
  lemma PageItemCount(s: Store, meta: Option<PageableDto>, filter: Option<Filter>)
    requires Consistent(s)
    ensures var r := FindPageSpec(s, meta, filter);
            r.Ok? && !IsFilled(filter.value) ==>
              var skip, size := ItemsToSkip(meta.value), meta.value.size;
              ItemCount(r.value) == (if CountOf(s) <= skip then 0
                                     else if CountOf(s) - skip < size then CountOf(s) - skip else size)
    ensures var r := FindPageSpec(s, meta, filter);
            r.Ok? && IsFilled(filter.value) && ItemsToSkip(meta.value) < CountOf(s) ==>
              var skip, size := ItemsToSkip(meta.value), meta.value.size;
              var n := |AreaScan(s.byId, BottomLeftOf(filter.value), UpperRightOf(filter.value))|;
              ItemCount(r.value) == (if n <= skip then 0 else if n - skip < size then n - skip else size)
  {
    AgreeingViewsSameSize(s);
    FoundPageItemCount(s, meta, filter);
  }

  /** Seven widgets in pages of three: pages 1 to 4 hold 3, 3, 1 and 0
      widgets, each page reports 7 in total, and there are 3 pages. */
  lemma PagesOfSevenByThree(s: Store)
    requires Consistent(s) && CountOf(s) == 7
    ensures forall page | 1 <= page <= 4 ::
      var r := FindPageSpec(s, Some(PageableDto(page, 3)), Some(EmptyFilter()));
      && r.Ok? && r.value.totalItems == 7 && AvailableCount(r.value) == 3
      && ItemCount(r.value) == (if page <= 2 then 3 else if page == 3 then 1 else 0)
  {
    forall page | 1 <= page <= 4
      ensures var r := FindPageSpec(s, Some(PageableDto(page, 3)), Some(EmptyFilter()));
              && r.Ok? && r.value.totalItems == 7 && AvailableCount(r.value) == 3
              && ItemCount(r.value) == (if page <= 2 then 3 else if page == 3 then 1 else 0)
    {
      PageItemCount(s, Some(PageableDto(page, 3)), Some(EmptyFilter()));
    }
  }

  /** The z-index `save` files a new widget under: the requested one, else
      one above the highest, else 0 on an empty store. */
  function TargetZIndex(s: Store, dto: WidgetDto): (t: int)
    ensures dto.zIndex.Some? ==> t == dto.zIndex.value
    ensures dto.zIndex.None? && s.byZIndex == map[] ==> t == 0
    ensures dto.zIndex.None? && s.byZIndex != map[] ==>
      t - 1 in s.byZIndex && forall z | z in s.byZIndex :: z < t
  {
    if dto.zIndex.Some? then dto.zIndex.value
    else
      var highest := HighestZIndexOf(s);
      if highest.Some? then highest.value + 1 else 0
  }

  /** `save`: pick the z-index, shift the run at it up by one, stamp the DTO
      with the fresh id, the z-index and the time, and save the converted
      widget. A conversion that throws leaves the shift written. */
  function SaveSpec(s: Store, dto: WidgetDto, freshId: Uuid, now: Timestamp): (r: (Store, Result<WidgetDto>))
    requires Wf(s)
    ensures Wf(r.0)
    ensures r.1.Ok? <==> dto.width > 0 && dto.height > 0
    ensures r.1.Err? ==> r.1.error.IllegalArgument? && r.0 == ShiftedStore(s, TargetZIndex(s, dto), None, now)
    ensures r.1.Ok? ==> r.1.value == dto.(id := Some(freshId), zIndex := Some(TargetZIndex(s, dto)), modifiedAt := Some(now))
    ensures r.1.Ok? ==> (&& freshId in r.0.byId
                         && r.0.byId[freshId] == Widget(Some(freshId), dto.x, dto.y, Some(TargetZIndex(s, dto)),
                                                        dto.height, dto.width, Some(now))
                         && TargetZIndex(s, dto) in r.0.byZIndex
                         && r.0.byZIndex[TargetZIndex(s, dto)] == r.0.byId[freshId])
  {
    var t := TargetZIndex(s, dto);
    var shifted := ShiftedStore(s, t, None, now);
    var out := dto.(id := Some(freshId), zIndex := Some(t), modifiedAt := Some(now));
    var newest := ConvertFromDto(out, now);
    if newest.Err? then (shifted, Err(newest.error))
    else (Saved(shifted, newest.value), Ok(out))
  }

  /** `update`: check the DTO, find the old version, shift the run at the
      requested z-index up to (not including) the old version's z-index,
      stamp the DTO with the id and the time, remove the old version and
      save the converted widget. */
  function UpdateSpec(s: Store, id: Uuid, dto: WidgetDto, now: Timestamp): (r: (Store, Result<WidgetDto>))
    requires Wf(s)
    ensures Wf(r.0)
    ensures dto.zIndex.None? ==> r.0 == s && r.1.Err? && r.1.error.IllegalArgument?
    ensures dto.zIndex.Some? && id !in s.byId ==> r.0 == s && r.1.Err? && r.1.error.NoSuchElement?
    ensures r.1.Ok? <==> dto.zIndex.Some? && id in s.byId && dto.width > 0 && dto.height > 0
    ensures dto.zIndex.Some? && id in s.byId && !(dto.width > 0 && dto.height > 0) ==>
      && r.1.Err? && r.1.error.IllegalArgument?
      && r.0 == ShiftedStore(s, dto.zIndex.value, s.byId[id].zIndex, now)
    ensures r.1.Ok? ==> r.1.value == dto.(id := Some(id), modifiedAt := Some(now))
    ensures r.1.Ok? ==> (&& id in r.0.byId
                         && r.0.byId[id] == Widget(Some(id), dto.x, dto.y, dto.zIndex, dto.height, dto.width, Some(now))
                         && dto.zIndex.value in r.0.byZIndex
                         && r.0.byZIndex[dto.zIndex.value] == r.0.byId[id])
  {
    var valid := AssertUpdatedWidgetIsValid(dto);
    if valid.Fail? then (s, Err(valid.error))
    else
      var oldest := WidgetById(s, id);
      var found := AssertWidgetWasFound(id, oldest);
      if found.Fail? then (s, Err(found.error))
      else
        var shifted := ShiftedStore(s, dto.zIndex.value, oldest.value.zIndex, now);
        var out := dto.(id := Some(id), modifiedAt := Some(now));
        var newest := ConvertFromDto(out, now);
        if newest.Err? then (shifted, Err(newest.error))
        else
          var removed := Removed(shifted, oldest.value).0;
          (Saved(removed, newest.value), Ok(out))
  }

  /** `delete`: find the widget, remove it and return it as a DTO. */
  function DeleteSpec(s: Store, id: Uuid): (r: (Store, Result<WidgetDto>))
    requires Wf(s)
    ensures Wf(r.0)
    ensures r.1.Ok? <==> id in s.byId
    ensures r.1.Err? ==> r.0 == s && r.1.error.NoSuchElement?
    ensures r.1.Ok? ==> (&& r.1.value == FromEntity(s.byId[id])
                         && r.0.byId == s.byId - {id}
                         && r.0.byZIndex == s.byZIndex - {s.byId[id].zIndex.value})
  {
    var oldest := WidgetById(s, id);
    var found := AssertWidgetWasFound(id, oldest);
    if found.Fail? then (s, Err(found.error))
    else
      var (after, removed) := Removed(s, oldest.value);
      (after, Ok(ConvertFromEntity(removed.value)))
  }
}
