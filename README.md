# widget-api in Dafny

A model of the in-memory widget store and the widget service of the
widget-api repository (Java, Spring). A widget is a rectangle on an
infinite plane with an id, a z-index and a modification time.

- **The repository** (`InMemoryWidgetRepository`) keeps one widget set in three
  views: a map by id, a sorted map by z-index, and a four-level sorted map by
  corner coordinates whose innermost sets are ordered by (z-index, id).
- **The service** (`ConcurrentWidgetService`) assigns z-indexes and shifts the
  run of occupied z-indexes above a taken one up by one. It validates paging
  and filter requests, and sequences save, update and delete.

Layout:

- Value types are datatypes with pure functions:
  - `geometry.dfy`: Point and Rectangle;
  - `corner_point.dfy`, `filter.dfy` and `page.dfy`;
  - `widget.dfy`: Widget and WidgetDto.
- `spatial_index.dfy` holds the nested corner index.
- `widget_store.dfy` holds `WidgetStore`: a value snapshot of the three views,
  plus every query and update as a function on it. `ordering.dfy` supplies the
  minima, maxima and sorted key sequences those functions need.
- The repository is the class `Repository.InMemoryWidgetRepository` in
  `repository.dfy`. It has the three map fields, and each method is proved
  against the `WidgetStore` function for its effect.
- The service's pure parts are functions in `service_logic.dfy`: validators,
  converters, the shift walk, and the effect of each public operation on a
  snapshot. The class `Service.ConcurrentWidgetService` in `service.dfy`
  calls the repository, and each method is proved against its effect function.
  The shift loop (`CollectShiftedCopies`) is a `while` loop with invariants.
- The properties:
  - `store_properties.dfy`: the repository's own promises and quirks;
  - `shift_properties.dfy`: the shift walk copies exactly the run of occupied
    z-indexes from the target, and writing it back moves that run up by one;
  - `service_properties.dfy`: `save` and `delete` keep the views agreeing;
  - `update_properties.dfy`: when `update` keeps them agreeing, and when not.

Two predicates describe the store. `WidgetStore.Wf` is the shape every
operation keeps: widgets are filed under their own keys, and the corner
index mirrors the id view. `WidgetStore.Consistent` adds that the z view
and the id view hold the same widgets.

Two behaviours of the code are modelled as written and proved as theorems:

- **`update` can lose a widget from the z view.** `update` shifts the run at the
  requested z-index, stopping at the old version's z-index. Only then does it
  remove the old version, and removal drops that z key unconditionally. So when
  the run reaches the old z-index, the copy just filed there leaves the z view
  while the id view keeps it.
  `UpdateProperties.UpdateKeepsConsistencyIff` proves that an accepted
  update keeps the views agreeing exactly when the run does not reach the old
  z-index. `UpdateProperties.UpdateRemovingFirst` is a reference operation
  that removes first, and it is proved to always keep them agreeing. It is a
  design alternative, not the service's behaviour: the service model uses the
  code as written.
- **`save` and `update` write the shift before conversion can fail.** When the
  DTO has a non-positive side, the shift stays written and the result is an
  error. For `save`, `ServiceProperties.SaveFailureBreaksConsistency` shows
  the views then disagree; for `update`, the contract of
  `ServiceLogic.UpdateSpec` states the store left is the shift.
- **Reading back a saved widget exchanges its width and height.** The
  conversion from DTO to widget passes the DTO's height as the widget's
  width and its width as the height, while the answer of `save` and
  `update` is the DTO itself. So `findById` after a successful `save` or
  `update` gives the answered DTO with the two sides exchanged, and the
  two agree exactly for a square widget
  (`ServiceProperties.SaveThenFindById`, `ServiceProperties.UpdateThenFindById`).

Java `null` is `Option.None`. A thrown exception is `Result.Err` or
`Outcome.Fail` carrying its class: IllegalArgument, NullPointer or
NoSuchElement.

## Model

| member | source | states |
|---|---|---|
| Geometry.Half | src/main/java/com/miro/widget/api/model/entity/Rectangle.java:67-73 | Java's `side / 2` truncates toward zero: for a non-negative side, h+h <= side < h+h+2; a negative side is mirrored |
| Geometry.CalculateBottomLeftCoordinate | src/main/java/com/miro/widget/api/model/entity/Rectangle.java:67-69 | the lower coordinate lies half the side, truncated toward zero, below the centre (above it for a negative side) |
| Geometry.CalculateUpperRightCoordinate | src/main/java/com/miro/widget/api/model/entity/Rectangle.java:71-73 | the upper coordinate lies half the side, truncated toward zero, above the centre (below it for a negative side) |
| Geometry.FromCentre | src/main/java/com/miro/widget/api/model/entity/Rectangle.java:22-42 | fails with IllegalArgument exactly when width <= 0 (checked first) or height <= 0; otherwise keeps centre and sides, and the corners are centre minus and plus side/2 |
| Geometry.FromCorners | src/main/java/com/miro/widget/api/model/entity/Rectangle.java:44-65 | a null bottom-left, then a null upper-right, gives NullPointer; bottom-left not strictly left of or below upper-right gives IllegalArgument; it succeeds exactly when both corners are present and strictly ordered, with positive sides equal to the differences and centre bottom-left + side/2 |
| Geometry.CornerSpan | src/main/java/com/miro/widget/api/model/entity/Rectangle.java:67-73 | for a positive side the corners are centre -/+ side/2; they span the side when it is even and side-1 when it is odd, and the centre lies between them |
| Geometry.OddWidthExample | src/main/java/com/miro/widget/api/model/entity/Rectangle.java:34-41 | width 5 at x = 10 gives corners 8 and 12 |
| Geometry.CentreCornersRoundTrip | src/main/java/com/miro/widget/api/model/entity/Rectangle.java:34-64 | centre and size to corners and back to the corner constructor keeps the centre; it keeps a side exactly when the side is even, and otherwise loses one unit |
| Geometry.UnitSideRoundTripFails | src/main/java/com/miro/widget/api/model/entity/Rectangle.java:34-56 | a side of 1 puts both corners of that axis on the centre, so the corner constructor rejects them: on the x axis when the width is 1, else on the y axis |
| CornerPoints.CompareTo | src/main/java/com/miro/widget/api/model/entity/CornerPoint.java:17-31 | null gives NullPointer; the result is 1 exactly when this point dominates the other, 0 exactly when the coordinates are equal, and -1 in every other case |
| CornerPoints.DominanceTransitive | src/main/java/com/miro/widget/api/model/entity/CornerPoint.java:20-23 | if a answers 1 against b and b answers 1 against c, then a answers 1 against c |
| CornerPoints.DominanceAsymmetric | src/main/java/com/miro/widget/api/model/entity/CornerPoint.java:20-30 | when a answers 1 against b, b answers -1 against a |
| CornerPoints.IncomparablePointsBothLess | src/main/java/com/miro/widget/api/model/entity/CornerPoint.java:28-30 | any two distinct points where neither dominates answer -1 in both directions, so the order is not antisymmetric; (0, 1) and (1, 0) are such a pair |
| CornerPoints.ComparisonExamples | src/test/java/com/miro/widget/api/model/entity/CornerPointComparerTest.java:27-58 | the results for the equal, one-axis, two-axis and chained pairs the tests compare |
| Widgets.NewWidget | src/main/java/com/miro/widget/api/model/entity/Rectangle.java:22-42 | the six-argument widget constructor fails exactly as the rectangle constructor does; otherwise it keeps every argument, stamps the time, and has the rectangle's corners |
| Widgets.Copy | src/main/java/com/miro/widget/api/model/entity/Widget.java:43-53 | the copy equals its argument in all seven fields |
| Widgets.FromDto | src/main/java/com/miro/widget/api/model/entity/Widget.java:33-41 | copies x, y, z-index, width and height, and leaves id and modification time null |
| Widgets.FromEntity | src/main/java/com/miro/widget/api/model/dto/WidgetDto.java:40-50 | carries all seven fields over unchanged |
| Widgets.IncrementZIndex | src/main/java/com/miro/widget/api/service/ConcurrentWidgetService.java:179-182 | the z-index goes up by one and nothing else changes |
| Widgets.DtoRoundTrip | src/main/java/com/miro/widget/api/model/entity/Widget.java:33-41 | `fromDto` then `fromEntity` gives back the DTO, with id and modification time cleared |
| Widgets.EntityRoundTrip | src/main/java/com/miro/widget/api/model/dto/WidgetDto.java:40-50 | `fromEntity` then `fromDto` gives back the widget, with id and modification time cleared |
| Widgets.CopyIsIndependent | src/main/java/com/miro/widget/api/model/entity/Widget.java:43-53 | changing a copy's z-index leaves the original as it was |
| Filters.IsFilled | src/main/java/com/miro/widget/api/model/entity/Filter.java:24-29 | true exactly when all four bounds are present |
| Filters.EmptyFilter | src/main/java/com/miro/widget/api/model/entity/Filter.java:8-10 | the no-argument filter has no bound, so it is not filled and the controller's completeness check lets it through |
| Filters.AssertFilterIsComplete | src/main/java/com/miro/widget/api/controller/WidgetController.java:190-202 | a null filter gives NullPointer; a filter with some bounds but not all gives IllegalArgument; it passes exactly when all or none are present |
| Filters.FilledExamples | src/main/java/com/miro/widget/api/model/entity/Filter.java:24-29 | the default filter and filters missing any one bound are not filled; an inverted box is filled |
| Pages.AvailableCount | src/main/java/com/miro/widget/api/model/entity/Page.java:29-33 | 0 when size is 0; otherwise the exact ceiling of totalItems / size: for a positive size the least n with n*size >= totalItems, for a negative size the least n with n*size <= totalItems |
| Pages.ItemCount | src/main/java/com/miro/widget/api/model/entity/Page.java:35-37 | the item count is 0 exactly when the page holds no items |
| Pages.CreateEmptyPage | src/main/java/com/miro/widget/api/model/entity/Page.java:39-41 | no items; number and size from the request; total from the argument |
| Pages.CreatePage | src/main/java/com/miro/widget/api/model/entity/Page.java:43-45 | the given items, the request's number and size, and the given total |
| Pages.CreatePageBy | src/main/java/com/miro/widget/api/model/entity/Page.java:47-49 | the new items, with the other page's number, size and total |
| Pages.CreatePageByKeepsMeta | src/main/java/com/miro/widget/api/model/entity/Page.java:43-49 | re-wrapping a page keeps its metadata and its page count |
| Pages.AvailableCountExample | src/main/java/com/miro/widget/api/model/entity/Page.java:29-33 | 7 items in pages of 3 make 3 pages; 6 make 2; 0 make 0; size 0 gives 0 |
| SpatialIndex.PutLeafAt | src/main/java/com/miro/widget/api/repository/InMemoryWidgetRepository.java:107-128 | writing the path of one box changes the innermost set of that box and of no other |
| SpatialIndex.AddToIndex | src/main/java/com/miro/widget/api/repository/InMemoryWidgetRepository.java:107-129 | the path of the widget's corners exists; its set gains the widget unless an element with the widget's (z-index, id) key is already there; every other set is unchanged |
| SpatialIndex.RemoveFromIndex | src/main/java/com/miro/widget/api/repository/InMemoryWidgetRepository.java:146-153 | the widget's key leaves the set of its corners; every other set is unchanged, and a missing path changes nothing |
| SpatialIndex.LeafOf | src/main/java/com/miro/widget/api/repository/InMemoryWidgetRepository.java:14-21 | the set the corner index should hold for a box: the widgets of the id view with those corners, keyed and ordered by (z-index, id) |
| SpatialIndex.MirrorsAfterPut | src/main/java/com/miro/widget/api/repository/InMemoryWidgetRepository.java:97-105 | taking out the replaced version and then adding the new one keeps the corner index mirroring the updated id view |
| SpatialIndex.MirrorsAfterRemove | src/main/java/com/miro/widget/api/repository/InMemoryWidgetRepository.java:136-153 | taking out the stored version keeps the corner index mirroring the id view without that id |
| SpatialIndex.MirrorsEmpty | src/main/java/com/miro/widget/api/repository/InMemoryWidgetRepository.java:155-160 | the empty corner index mirrors the empty id view |
| SpatialIndex.SearchMatchesScan | src/main/java/com/miro/widget/api/repository/InMemoryWidgetRepository.java:68-89 | on a mirroring index, the four-level inclusive `subMap` walk finds exactly the stored widgets whose four corner coordinates lie in the query's x and y ranges |
| SpatialIndex.SearchWitness | src/main/java/com/miro/widget/api/repository/InMemoryWidgetRepository.java:68-89 | everything the walk finds sits in the innermost set of a box whose coordinates are in range |
| SpatialIndex.FoundIsScanned | src/main/java/com/miro/widget/api/repository/InMemoryWidgetRepository.java:68-89 | everything the walk finds is a stored widget in the area |
| SpatialIndex.ScannedIsFound | src/main/java/com/miro/widget/api/repository/InMemoryWidgetRepository.java:68-89 | every stored widget in the area is found by the walk |
| WidgetStore.AgreeingWithout | src/main/java/com/miro/widget/api/repository/InMemoryWidgetRepository.java:136-144 | dropping a stored id and the z key of its widget from agreeing views leaves agreeing views |
| WidgetStore.AgreeingViewsSameSize | src/main/java/com/miro/widget/api/repository/InMemoryWidgetRepository.java:18-26 | agreeing views hold as many z keys as ids, so the count read from the id view is the length of the z listing |
| WidgetStore.HighestZIndexOf | src/main/java/com/miro/widget/api/repository/InMemoryWidgetRepository.java:28-33 | null exactly when the z view is empty; otherwise the largest key |
| WidgetStore.CeilingZIndexOf | src/main/java/com/miro/widget/api/repository/InMemoryWidgetRepository.java:35-38 | null exactly when every key is below the index; otherwise the least key at or above it |
| WidgetStore.WidgetById | src/main/java/com/miro/widget/api/repository/InMemoryWidgetRepository.java:40-43 | the id view's entry, present exactly when the id is stored |
| WidgetStore.ValuesInKeyOrder | src/main/java/com/miro/widget/api/repository/InMemoryWidgetRepository.java:45-48 | the values under the chosen keys, one per key, each under its own z-index, in strictly ascending z order |
| WidgetStore.ValuesOfAscendingKeys | src/main/java/com/miro/widget/api/repository/InMemoryWidgetRepository.java:45-48 | reading the z view at the chosen keys in ascending order yields every widget under those keys, each filed under its own z-index, in strictly ascending z order |
| WidgetStore.SortedByZIndex | src/main/java/com/miro/widget/api/repository/InMemoryWidgetRepository.java:45-48 | every widget of the z view, once, in strictly ascending z order |
| WidgetStore.Window | src/main/java/com/miro/widget/api/repository/InMemoryWidgetRepository.java:50-56 | a negative skip or take gives IllegalArgument; otherwise the elements from position skip, at most take of them, and none when skip >= the length |
| WidgetStore.SortedByZIndexWindow | src/main/java/com/miro/widget/api/repository/InMemoryWidgetRepository.java:50-56 | the ascending z listing with skip and take applied: exactly min(take, count - skip) widgets, 0 when skip >= count, each the one at its position after the skipped ones |
| WidgetStore.LeastByKey | src/main/java/com/miro/widget/api/repository/InMemoryWidgetRepository.java:14-16 | the widget with the least (z-index, id) key |
| WidgetStore.SortByKey | src/main/java/com/miro/widget/api/repository/InMemoryWidgetRepository.java:14-16 | a set read in (z-index, id) order: the same widgets, each once, in strictly ascending key order |
| WidgetStore.AreaScanDistinct | src/main/java/com/miro/widget/api/repository/InMemoryWidgetRepository.java:14-16 | the stored widgets of an area have pairwise distinct (z-index, id) keys |
| WidgetStore.InAreaSortedByZIndex | src/main/java/com/miro/widget/api/repository/InMemoryWidgetRepository.java:58-66 | an inverted or degenerate query box, or a negative skip or take, gives IllegalArgument; otherwise the stored widgets in the area in (z-index, id) order, with skip and take applied: exactly min(take, n - skip) of the n widgets in the area, 0 when skip >= n |
| WidgetStore.KeysFromCeiling | src/main/java/com/miro/widget/api/repository/InMemoryWidgetRepository.java:91-95 | the keys at or above the index are the ceiling key plus the keys above it |
| WidgetStore.TailFrom | src/main/java/com/miro/widget/api/repository/InMemoryWidgetRepository.java:91-95 | one widget per key of the z view at or above the index, each indexable |
| WidgetStore.Saved | src/main/java/com/miro/widget/api/repository/InMemoryWidgetRepository.java:97-105 | `saveOrUpdate` keeps every view keyed and the corner index mirroring the id view |
| WidgetStore.SavedAll | src/main/java/com/miro/widget/api/repository/InMemoryWidgetRepository.java:131-134 | saving a sequence one widget at a time keeps the id view keyed by id, and the z view keyed by z-index when it was before |
| WidgetStore.SavedAllKeepsShape | src/main/java/com/miro/widget/api/repository/InMemoryWidgetRepository.java:131-134 | saving a sequence one widget at a time keeps the full shape of the three views: each keyed by its own key, the spatial view mirroring the id view |
| WidgetStore.SavedAllPrefix | src/main/java/com/miro/widget/api/repository/InMemoryWidgetRepository.java:131-134 | saving one widget more after a prefix of the sequence is saving the next longer prefix, the step of the `forEach` |
| WidgetStore.Removed | src/main/java/com/miro/widget/api/repository/InMemoryWidgetRepository.java:136-144 | `remove` keeps the same shape |
| WidgetStore.Cleared | src/main/java/com/miro/widget/api/repository/InMemoryWidgetRepository.java:155-160 | `removeAll` leaves agreeing empty views: count 0 and no highest z-index |
| Repository.InMemoryWidgetRepository.constructor | src/main/java/com/miro/widget/api/repository/InMemoryWidgetRepository.java:18-21 | a new repository holds three empty views |
| Repository.InMemoryWidgetRepository.Count | src/main/java/com/miro/widget/api/repository/InMemoryWidgetRepository.java:23-26 | the size of the id view |
| Repository.InMemoryWidgetRepository.FindHighestZIndex | src/main/java/com/miro/widget/api/repository/InMemoryWidgetRepository.java:28-33 | the highest z-index of the current views |
| Repository.InMemoryWidgetRepository.FindLeastZIndexGreaterThanOrEqualTo | src/main/java/com/miro/widget/api/repository/InMemoryWidgetRepository.java:35-38 | the ceiling key of the current z view |
| Repository.InMemoryWidgetRepository.FindById | src/main/java/com/miro/widget/api/repository/InMemoryWidgetRepository.java:40-43 | the current id view's entry |
| Repository.InMemoryWidgetRepository.FindAllSortByZIndex | src/main/java/com/miro/widget/api/repository/InMemoryWidgetRepository.java:45-48 | the current z view in ascending order |
| Repository.InMemoryWidgetRepository.FindAllSortByZIndexWindow | src/main/java/com/miro/widget/api/repository/InMemoryWidgetRepository.java:50-56 | the window of the ascending listing |
| Repository.InMemoryWidgetRepository.FindAllInAreaSortByZIndex | src/main/java/com/miro/widget/api/repository/InMemoryWidgetRepository.java:58-66 | the area query over the current views, computed by walking the corner index |
| Repository.InMemoryWidgetRepository.FindAllSortByZIndexGreaterThanOrEqualTo | src/main/java/com/miro/widget/api/repository/InMemoryWidgetRepository.java:91-95 | the tail of the current z view |
| Repository.InMemoryWidgetRepository.SaveOrUpdate | src/main/java/com/miro/widget/api/repository/InMemoryWidgetRepository.java:97-105 | the new views are `Saved` of the old ones, and the shape is kept |
| Repository.InMemoryWidgetRepository.AddToRectangleMap | src/main/java/com/miro/widget/api/repository/InMemoryWidgetRepository.java:107-129 | only the corner index changes, and it changes as `AddToIndex` says |
| Repository.InMemoryWidgetRepository.SaveOrUpdateAll | src/main/java/com/miro/widget/api/repository/InMemoryWidgetRepository.java:131-134 | the new views are the old ones with each widget saved in order |
| Repository.InMemoryWidgetRepository.Remove | src/main/java/com/miro/widget/api/repository/InMemoryWidgetRepository.java:136-144 | the new views and the answer are those of `Removed` |
| Repository.InMemoryWidgetRepository.RemoveInRectangleMap | src/main/java/com/miro/widget/api/repository/InMemoryWidgetRepository.java:146-153 | only the corner index changes, and it changes as `RemoveFromIndex` says |
| Repository.InMemoryWidgetRepository.RemoveAll | src/main/java/com/miro/widget/api/repository/InMemoryWidgetRepository.java:155-160 | all three views are emptied |
| StoreProperties.EmptyStoreAnswersNothing | src/main/java/com/miro/widget/api/repository/InMemoryWidgetRepository.java:23-43 | on an empty store: count 0, no highest or ceiling z-index, an empty tail, no widget for any id, and agreeing views |
| StoreProperties.FiledUnderCorners | src/main/java/com/miro/widget/api/repository/InMemoryWidgetRepository.java:107-129 | a mirroring corner index holds each stored widget in the set of its own corners, under its own key |
| StoreProperties.SaveNewWidget | src/main/java/com/miro/widget/api/repository/InMemoryWidgetRepository.java:97-105 | saving a new id at a free z-index adds one widget, which is then found by its id, under its z-index and under its corners; the views still agree |
| StoreProperties.SaveNewVersionLeavesOldZKey | src/main/java/com/miro/widget/api/repository/InMemoryWidgetRepository.java:97-104 | saving a stored id under another z-index keeps the count. The id view and the corner index hold only the new version. The z view still files the old version under the old key, so the views no longer agree |
| StoreProperties.RemoveStoredId | src/main/java/com/miro/widget/api/repository/InMemoryWidgetRepository.java:136-144 | remove of a stored id answers the stored version, whatever version it was given; count drops by one, the id is gone, and the argument's z key is dropped |
| StoreProperties.RemoveAbsentIdDropsZKey | src/main/java/com/miro/widget/api/repository/InMemoryWidgetRepository.java:136-144 | remove of an absent id answers null and leaves the id view and the corner index alone, but drops the argument's z key; when another widget held that key, the views no longer agree |
| ServiceLogic.Distance | src/main/java/com/miro/widget/api/service/ConcurrentWidgetService.java:202-204 | the absolute difference |
| ServiceLogic.IsDistanceGreaterThanOne | src/main/java/com/miro/widget/api/service/ConcurrentWidgetService.java:194-196 | true exactly when the two values are more than one apart |
| ServiceLogic.IsDistanceGreaterThanZero | src/main/java/com/miro/widget/api/service/ConcurrentWidgetService.java:198-200 | true exactly when the two values differ |
| ServiceLogic.AssertWidgetWasFound | src/main/java/com/miro/widget/api/service/ConcurrentWidgetService.java:206-210 | passes exactly when the widget is present; otherwise NoSuchElement |
| ServiceLogic.AssertUpdatedWidgetIsValid | src/main/java/com/miro/widget/api/service/ConcurrentWidgetService.java:212-216 | passes exactly when the z-index is set; otherwise IllegalArgument |
| ServiceLogic.AssertPageableIsValid | src/main/java/com/miro/widget/api/service/ConcurrentWidgetService.java:218-229 | null gives NullPointer; page <= 0 or size <= 0 gives IllegalArgument; otherwise it passes |
| ServiceLogic.AssertFilterIsValid | src/main/java/com/miro/widget/api/service/ConcurrentWidgetService.java:231-244 | null gives NullPointer; on an axis with both bounds present, lower >= upper gives IllegalArgument; otherwise it passes |
| ServiceLogic.ConvertFromDto | src/main/java/com/miro/widget/api/service/ConcurrentWidgetService.java:246-255 | fails exactly when a side is not positive; otherwise keeps id, centre and z-index, stamps the time, and puts the DTO's height in the width and its width in the height |
| ServiceLogic.ConvertFromEntity | src/main/java/com/miro/widget/api/service/ConcurrentWidgetService.java:257-267 | the same DTO as `WidgetDto.fromEntity` |
| ServiceLogic.ToDtos | src/main/java/com/miro/widget/api/service/ConcurrentWidgetService.java:66-68 | converts each widget, keeping the order and the length |
| ServiceLogic.CreateCopy | src/main/java/com/miro/widget/api/service/ConcurrentWidgetService.java:269-278 | a copy of every field except the modification time, which is the clock reading |
| ServiceLogic.ShiftedCopy | src/main/java/com/miro/widget/api/service/ConcurrentWidgetService.java:179-182 | the copy stands one z-index higher and carries the new time; every other field is the original's |
| ServiceLogic.RunLengthFrom | src/main/java/com/miro/widget/api/service/ConcurrentWidgetService.java:170-185 | the loop from a position runs to the first position that breaks, or to the end |
| ServiceLogic.RunLength | src/main/java/com/miro/widget/api/service/ConcurrentWidgetService.java:170-185 | every position before the run length continues, and the one at it breaks unless the tail ended |
| ServiceLogic.RunLengthIsFirstBreak | src/main/java/com/miro/widget/api/service/ConcurrentWidgetService.java:170-185 | the run length is the unique such position |
| ServiceLogic.ShiftedRun | src/main/java/com/miro/widget/api/service/ConcurrentWidgetService.java:166-186 | the copies one z-index higher of exactly the run-length prefix of the tail, in order |
| ServiceLogic.ShiftedTail | src/main/java/com/miro/widget/api/service/ConcurrentWidgetService.java:166-186 | the shifted run of the z tail at the target, each copy indexable |
| ServiceLogic.NeedShift | src/main/java/com/miro/widget/api/service/ConcurrentWidgetService.java:188-192 | true exactly when the target z-index is taken |
| ServiceLogic.ShiftedStore | src/main/java/com/miro/widget/api/service/ConcurrentWidgetService.java:98-101 | the shape is kept, and nothing changes when the target is free |
| ServiceLogic.FindByIdSpec | src/main/java/com/miro/widget/api/service/ConcurrentWidgetService.java:28-39 | the stored widget as a DTO, present exactly when the id is stored |
| ServiceLogic.FindAllSpec | src/main/java/com/miro/widget/api/service/ConcurrentWidgetService.java:73-85 | every widget of the z view as a DTO, in ascending z order |
| ServiceLogic.PageWindow | src/main/java/com/miro/widget/api/service/ConcurrentWidgetService.java:52-58 | a filled filter reads the area window, any other filter the plain window; neither can fail once the request is validated |
| ServiceLogic.FindPageSpec | src/main/java/com/miro/widget/api/service/ConcurrentWidgetService.java:41-71 | fails exactly when the request or the filter is invalid, with the error of the first failing check. Otherwise: the request's number and size, the whole-store count as total, at most size items, empty when count <= (page-1)*size, else the DTOs of the window |
| ServiceLogic.FindPageOfValidRequest | src/main/java/com/miro/widget/api/service/ConcurrentWidgetService.java:48-70 | a valid request is answered with the empty page or the page of the window, as the count decides |
| ServiceLogic.ItemsToSkip | src/main/java/com/miro/widget/api/service/ConcurrentWidgetService.java:48-48 | for a positive size, a whole number of pages: page - 1 of them; never negative for a page of at least 1 |
| ServiceLogic.FoundPageItemCount | src/main/java/com/miro/widget/api/service/ConcurrentWidgetService.java:41-71 | a page `findPage` answers holds at most the requested size, none when the store does not reach past the skipped items, and otherwise as many as the window read |
| ServiceLogic.PageItemCount | src/main/java/com/miro/widget/api/service/ConcurrentWidgetService.java:41-71 | on agreeing views an unfiltered page holds 0 widgets when the count does not reach past the skipped ones, else min(size, count - skip); a filtered page the same share of the widgets in the area |
| ServiceLogic.PagesOfSevenByThree | src/main/java/com/miro/widget/api/service/ConcurrentWidgetService.java:41-71 | any agreeing store of 7 widgets in pages of 3: pages 1 to 4 hold 3, 3, 1 and 0 widgets, total 7, 3 pages |
| ServiceLogic.TargetZIndex | src/main/java/com/miro/widget/api/service/ConcurrentWidgetService.java:91-96 | the requested z-index; else one above the highest; else 0 on an empty z view |
| ServiceLogic.SaveSpec | src/main/java/com/miro/widget/api/service/ConcurrentWidgetService.java:87-111 | succeeds exactly when both sides are positive. A failure is IllegalArgument and leaves the shift written. Success returns the DTO with the fresh id, the target z-index and the time, and stores under the fresh id, also filed at the target z-index, a widget with the DTO's sides swapped |
| ServiceLogic.UpdateSpec | src/main/java/com/miro/widget/api/service/ConcurrentWidgetService.java:113-136 | a null z-index fails with IllegalArgument and an unknown id with NoSuchElement, both leaving the store untouched. It succeeds exactly when the z-index is set, the id is stored and both sides are positive. Success returns the DTO with the id and the time, and files the new version (sides swapped) under the id and the requested z-index. With the z-index set and the id stored, a non-positive side fails with IllegalArgument and leaves exactly the shift written |
| ServiceLogic.DeleteSpec | src/main/java/com/miro/widget/api/service/ConcurrentWidgetService.java:138-150 | succeeds exactly when the id is stored, returning it as a DTO and removing its id and z keys; an unknown id fails with NoSuchElement and changes nothing |
| Service.ConcurrentWidgetService.constructor | src/main/java/com/miro/widget/api/service/ConcurrentWidgetService.java:24-25 | the service works on the given repository |
| Service.ConcurrentWidgetService.FindById | src/main/java/com/miro/widget/api/service/ConcurrentWidgetService.java:28-39 | answers `FindByIdSpec` of the repository's views |
| Service.ConcurrentWidgetService.FindPage | src/main/java/com/miro/widget/api/service/ConcurrentWidgetService.java:41-71 | answers `FindPageSpec` of the repository's views |
| Service.ConcurrentWidgetService.FindAll | src/main/java/com/miro/widget/api/service/ConcurrentWidgetService.java:73-85 | answers `FindAllSpec` of the repository's views |
| Service.ConcurrentWidgetService.Save | src/main/java/com/miro/widget/api/service/ConcurrentWidgetService.java:87-111 | the new views and the answer are `SaveSpec` of the old views |
| Service.ConcurrentWidgetService.ShiftAt | src/main/java/com/miro/widget/api/service/ConcurrentWidgetService.java:98-101 | the new views are `ShiftedStore` of the old ones |
| Service.ConcurrentWidgetService.Update | src/main/java/com/miro/widget/api/service/ConcurrentWidgetService.java:113-136 | the new views and the answer are `UpdateSpec` of the old views |
| Service.ConcurrentWidgetService.Delete | src/main/java/com/miro/widget/api/service/ConcurrentWidgetService.java:138-150 | the new views and the answer are `DeleteSpec` of the old views |
| Service.ConcurrentWidgetService.DeleteAll | src/main/java/com/miro/widget/api/service/ConcurrentWidgetService.java:152-160 | all views are emptied |
| Service.ConcurrentWidgetService.GetShiftedTailWidgetsAt | src/main/java/com/miro/widget/api/service/ConcurrentWidgetService.java:166-186 | the shifted run of the repository's z tail |
| Service.ConcurrentWidgetService.IsNeedToShiftTailWidgetsAt | src/main/java/com/miro/widget/api/service/ConcurrentWidgetService.java:188-192 | whether the target z-index is taken |
| Service.CollectShiftedCopies | src/main/java/com/miro/widget/api/service/ConcurrentWidgetService.java:170-185 | the loop collects exactly `ShiftedRun` of the tail |
| ShiftProperties.ConsTail | src/main/java/com/miro/widget/api/repository/InMemoryWidgetRepository.java:91-95 | the widget under the ceiling key followed by the tail above it is the tail |
| ShiftProperties.TailFromIsTail | src/main/java/com/miro/widget/api/repository/InMemoryWidgetRepository.java:91-95 | the z tail holds exactly the widgets of the z view at or above the index, each under its own key, in ascending order |
| ShiftProperties.TailIndexOf | src/main/java/com/miro/widget/api/repository/InMemoryWidgetRepository.java:91-95 | each key of the z tail has a position in it |
| ShiftProperties.TailStartsAt | src/main/java/com/miro/widget/api/repository/InMemoryWidgetRepository.java:91-95 | when the index is taken, the tail starts with its widget |
| ShiftProperties.TailNext | src/main/java/com/miro/widget/api/service/ConcurrentWidgetService.java:170-176 | in a tail, the widget one z-index above a tail widget comes right after it |
| ShiftProperties.RunPrefix | src/main/java/com/miro/widget/api/service/ConcurrentWidgetService.java:170-185 | the i-th copied position holds z-index target + i |
| ShiftProperties.RunEnd | src/main/java/com/miro/widget/api/service/ConcurrentWidgetService.java:170-185 | the walk stops at target + run length because that z-index is free or excluded |
| ShiftProperties.RunShape | src/main/java/com/miro/widget/api/service/ConcurrentWidgetService.java:170-185 | the walk copies the widgets under target .. target+n-1, all taken and none excluded, and target+n is free or excluded |
| ShiftProperties.ShiftCount | src/main/java/com/miro/widget/api/service/ConcurrentWidgetService.java:166-186 | the number of consecutive taken, non-excluded z-indexes from the target |
| ShiftProperties.ShiftCountUnique | src/main/java/com/miro/widget/api/service/ConcurrentWidgetService.java:166-186 | any run length of that shape equals the shift count |
| ShiftProperties.RunBounds | src/main/java/com/miro/widget/api/service/ConcurrentWidgetService.java:166-186 | the walk's length has the shape of the shift count |
| ShiftProperties.TailRun | src/main/java/com/miro/widget/api/service/ConcurrentWidgetService.java:166-186 | the walk over the z tail copies exactly shift-count widgets |
| ShiftProperties.RunCopies | src/main/java/com/miro/widget/api/service/ConcurrentWidgetService.java:179-182 | the copies, one z-index up, of the widgets under target .. target+k-1 |
| ShiftProperties.ShiftedTailIsRun | src/main/java/com/miro/widget/api/service/ConcurrentWidgetService.java:166-186 | what `getShiftedTailWidgetsAt` returns is the copies of that run |
| ShiftProperties.IdsStep | src/main/java/com/miro/widget/api/repository/InMemoryWidgetRepository.java:97-105 | saving the copy of the run's next widget extends the id view's shift by one |
| ShiftProperties.ZStep | src/main/java/com/miro/widget/api/repository/InMemoryWidgetRepository.java:97-105 | saving that copy extends the z view's shift by one |
| ShiftProperties.SoleHolder | src/main/java/com/miro/widget/api/repository/InMemoryWidgetRepository.java:18-19 | in agreeing views, one id holds each taken z-index |
| ShiftProperties.SavedViews | src/main/java/com/miro/widget/api/repository/InMemoryWidgetRepository.java:97-105 | `saveOrUpdate` updates the id view at the id and the z view at the z-index |
| ShiftProperties.SavedAllRunShape | src/main/java/com/miro/widget/api/repository/InMemoryWidgetRepository.java:131-134 | saving the run's copies in order moves every widget of the run up one z-index in the id view. The z view gains each copy one key higher, and every other key, the target among them, keeps its widget |
| ShiftProperties.ShiftedStoreShape | src/main/java/com/miro/widget/api/service/ConcurrentWidgetService.java:98-101 | the shift step of `save` and `update` in closed form: the run from the target, up to a free or excluded z-index, moved up by one |
| ServiceProperties.SaveAfterShiftZHalf | src/main/java/com/miro/widget/api/service/ConcurrentWidgetService.java:98-105 | after the shift and the save at the target, every z key names the widget its id holds |
| ServiceProperties.SaveAfterShiftIdHalf | src/main/java/com/miro/widget/api/service/ConcurrentWidgetService.java:98-105 | after the shift and the save at the target, every stored widget is the one filed under its z-index |
| ServiceProperties.SaveAfterShiftAgrees | src/main/java/com/miro/widget/api/service/ConcurrentWidgetService.java:98-105 | a new id saved at the bottom of a shifted run that ended at a free z-index leaves the views agreeing |
| ServiceProperties.SaveAfterShiftCount | src/main/java/com/miro/widget/api/service/ConcurrentWidgetService.java:98-105 | that save adds one widget |
| ServiceProperties.ShiftEndsFree | src/main/java/com/miro/widget/api/service/ConcurrentWidgetService.java:98-101 | with no excluded z-index taken, the run ends at a free z-index |
| ServiceProperties.ShiftThenSaveAgrees | src/main/java/com/miro/widget/api/service/ConcurrentWidgetService.java:98-105 | the shift followed by the save of a new id at the target keeps the views agreeing, with one widget more |
| ServiceProperties.ShiftThenSave | src/main/java/com/miro/widget/api/service/ConcurrentWidgetService.java:98-105 | the same with all three views |
| ServiceProperties.SaveKeepsConsistency | src/main/java/com/miro/widget/api/service/ConcurrentWidgetService.java:87-111 | a successful `save` with a fresh id keeps all views agreeing and adds one widget |
| ServiceProperties.SaveFailureBreaksConsistency | src/main/java/com/miro/widget/api/service/ConcurrentWidgetService.java:98-104 | a `save` at a taken z-index whose DTO has a non-positive side fails, yet leaves the shift written, and the views no longer agree |
| ServiceProperties.SaveSteps | src/main/java/com/miro/widget/api/service/ConcurrentWidgetService.java:87-111 | an accepted `save` is the shift at the target z-index, then the save of the converted DTO; with the target free nothing is shifted |
| ServiceProperties.SaveMovesOnlyTheRun | src/main/java/com/miro/widget/api/service/ConcurrentWidgetService.java:87-111 | a successful `save` under a fresh id adds the new widget at the target z-index, moves each widget of the run one z-index up in both views, and leaves every other widget where it was |
| ServiceProperties.SaveThenFindById | src/main/java/com/miro/widget/api/service/ConcurrentWidgetService.java:246-255 | after a successful `save`, `findById` of the new id gives the answered DTO with width and height exchanged; the two agree exactly when width equals height |
| ServiceProperties.UpdateThenFindById | src/main/java/com/miro/widget/api/service/ConcurrentWidgetService.java:246-255 | after a successful `update`, `findById` gives the answered DTO with width and height exchanged; the two agree exactly when width equals height |
| ServiceProperties.RemoveCurrentKeepsConsistency | src/main/java/com/miro/widget/api/repository/InMemoryWidgetRepository.java:136-144 | removing the stored version answers it and keeps the views agreeing, with one widget fewer and the id gone |
| ServiceProperties.DeleteKeepsConsistency | src/main/java/com/miro/widget/api/service/ConcurrentWidgetService.java:138-150 | `delete` keeps the views agreeing; on success there is one widget fewer and the id is no longer found |
| UpdateProperties.RunReachesOldIff | src/main/java/com/miro/widget/api/service/ConcurrentWidgetService.java:122-125 | with the old z-index taken, the run reaches it exactly when the shift count is the distance from the target to it |
| UpdateProperties.RemovedViews | src/main/java/com/miro/widget/api/repository/InMemoryWidgetRepository.java:136-144 | `remove` drops the id from the id view and the argument's z-index from the z view |
| UpdateProperties.IdsRestrict | src/main/java/com/miro/widget/api/service/ConcurrentWidgetService.java:122-130 | taking the updated id out of the id views keeps the id view's shift |
| UpdateProperties.ZRestrict | src/main/java/com/miro/widget/api/service/ConcurrentWidgetService.java:122-130 | taking a z-index outside the run out of the z views keeps the z view's shift |
| UpdateProperties.UpdateSteps | src/main/java/com/miro/widget/api/service/ConcurrentWidgetService.java:113-136 | an accepted update is the shift, then removing the old version, then saving the new one |
| UpdateProperties.UpdateOutsideRunKeepsConsistency | src/main/java/com/miro/widget/api/service/ConcurrentWidgetService.java:122-130 | when the run does not reach the old z-index, an accepted update keeps all views agreeing and keeps the count |
| UpdateProperties.LostCopy | src/main/java/com/miro/widget/api/service/ConcurrentWidgetService.java:122-125 | when the run reaches the old z-index, the shift files the copy of the widget below it, which has another id, under the old z-index |
| UpdateProperties.UpdateOverRunBreaksConsistency | src/main/java/com/miro/widget/api/service/ConcurrentWidgetService.java:122-130 | then the update leaves that copy in the id view while its z key is gone from the z view |
| UpdateProperties.UpdateKeepsConsistencyIff | src/main/java/com/miro/widget/api/service/ConcurrentWidgetService.java:113-136 | an accepted update keeps the views agreeing exactly when the shift run does not reach the old z-index |
| UpdateProperties.UpdateRemovingFirst | src/main/java/com/miro/widget/api/service/ConcurrentWidgetService.java:113-136 | the reference update that removes first answers as `update` does, and changes nothing when it fails |
| UpdateProperties.UpdateRemovingFirstKeepsConsistency | src/main/java/com/miro/widget/api/service/ConcurrentWidgetService.java:113-136 | removing first keeps the views agreeing on every request, keeps the count, and files the new version under its id and its z-index |

## Left out

- Locking: the `StampedLock` and its read and write sections are not modelled. Each public service method is one atomic step, so concurrency and the parallel and integration tests are outside the model.
- `Date.from(Instant.now())` and `UUID.randomUUID()` are parameters `now` and `freshId`; `save` is proved for a `freshId` not already stored.
- One `now` serves both the DTO's stamp and the stamp the widget constructor sets, where Java reads the clock twice; that the read-back `modifiedAt` equals the answered one holds only under this abstraction.
- UUID order is the order on `int` (`Widgets.Uuid`), and a `java.util.Date` is an `int` timestamp.
- Java `long` is unbounded `int`: overflow of `highest + 1`, of `incrementZIndex`, of `(page - 1) * size` and of corner arithmetic is not modelled.
- `Page.getAvailableCount` computes the ceiling in `double`; the model uses exact integer ceiling division.
- The repository methods require indexable widgets (id and z-index set); the service only passes stored widgets. What Java does otherwise is not modelled: a null z-index makes the TreeMap throw NullPointerException after the id view was written; a null id is accepted by the HashMap, so `remove` then only drops the z key and answers null, and `saveOrUpdate` throws from the corner set's (z, id) comparator once ids are compared.
- Service.ConcurrentWidgetService.constructor: Lombok's `@NonNull` check on the repository, which throws NullPointerException on null, is not modelled; a Dafny class reference is never null.
- Emptied maps and sets in the corner index stay in place, as in the source; the model compares innermost sets by content, so such empty levels are not observable.
- The Widget.java among the source files lacks the six-argument constructor, the corner getters and `incrementZIndex` that the service and repository call. The widget is modelled as a rectangle (centre, sides, derived corners) with an id, a z-index and a modification time. Its six-argument constructor validates as the rectangle constructor does and stamps the time. The widget `contains` method is not part of this model.
- ServiceLogic.CreateCopy: copies a stored widget without re-running the constructor's side checks, since a stored widget already passed them.
- Exception messages are reduced to short reasons; only the exception class is specified.
- The DTO passed to `save` and `update` is mutated in Java; the model returns the updated DTO as a new value instead.
- The HTTP layer (controller routing, hypermedia resources and links), the Spring configuration, the request and response holders and their validation annotations are not part of this model. The one rule kept from the controller is its all-or-none filter check, `Filters.AssertFilterIsComplete`.
- The `WidgetService` and `WidgetRepository` interfaces are not modelled separately; the classes are modelled directly.
- The shift step that `save` and `update` share is the method `ShiftAt`, and the loop of `getShiftedTailWidgetsAt` is the method `CollectShiftedCopies`. Both are split out of the service methods.
