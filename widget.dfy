/** Widget.java and WidgetDto.java. The widget used by the repository and
    the service is a rectangle (centre, sides, derived corners) with an id,
    a z-index and a modification time; the id, the z-index and the time are
    Java references and may be null. */
module Widgets {
  import opened Wrappers
  import opened Geometry

  /** UUIDs, with `UUID.compareTo` taken as the order on int. */
  type Uuid = int

  /** A `java.util.Date`, as a number of milliseconds. */
  type Timestamp = int

  datatype Widget = Widget(
    id: Option<Uuid>, x: int, y: int, zIndex: Option<int>,
    width: int, height: int, modifiedAt: Option<Timestamp>)

  datatype WidgetDto = WidgetDto(
    id: Option<Uuid>, x: int, y: int, zIndex: Option<int>,
    width: int, height: int, modifiedAt: Option<Timestamp>)

  /** A widget the repository can index: its id and z-index are set. */
  predicate Stored(w: Widget) {
    w.id.Some? && w.zIndex.Some?
  }

  /** The corners, computed from centre and sides as the rectangle does. */
  function BottomLeft(w: Widget): Point {
    Point(CalculateBottomLeftCoordinate(w.x, w.width), CalculateBottomLeftCoordinate(w.y, w.height))
  }

  function UpperRight(w: Widget): Point {
    Point(CalculateUpperRightCoordinate(w.x, w.width), CalculateUpperRightCoordinate(w.y, w.height))
  }

  /** The six-argument constructor `Widget(id, x, y, zIndex, width, height)`:
      it builds the rectangle first, so it rejects non-positive sides as the
      rectangle does; the modification time is the clock reading `stamp`. */
  function NewWidget(id: Option<Uuid>, x: int, y: int, zIndex: Option<int>,
                     width: int, height: int, stamp: Timestamp): (r: Result<Widget>)
    ensures r.Err? <==> FromCentre(x, y, width, height).Err?
    ensures r.Err? ==> r.error == FromCentre(x, y, width, height).error
    ensures r.Ok? ==> r.value == Widget(id, x, y, zIndex, width, height, Some(stamp))
    ensures r.Ok? ==> (BottomLeft(r.value) == FromCentre(x, y, width, height).value.bottomLeft
                       && UpperRight(r.value) == FromCentre(x, y, width, height).value.upperRight)
  {
    var rect := FromCentre(x, y, width, height);
    if rect.Err? then Err(rect.error)
    else Ok(Widget(id, x, y, zIndex, width, height, Some(stamp)))
  }

  /** `Widget.copy`: a widget equal to `self` in every field. Widgets are
      values here, so a change to the copy cannot reach the original. */
  function Copy(self: Widget): (r: Widget)
    ensures r.id == self.id && r.x == self.x && r.y == self.y && r.zIndex == self.zIndex
    ensures r.width == self.width && r.height == self.height && r.modifiedAt == self.modifiedAt
  {
    Widget(self.id, self.x, self.y, self.zIndex, self.width, self.height, self.modifiedAt)
  }

  /** `Widget.fromDto`: geometry and z-index from the DTO; id and
      modification time are left null. */
  function FromDto(dto: WidgetDto): (r: Widget)
    ensures r.id.None? && r.modifiedAt.None?
    ensures r.x == dto.x && r.y == dto.y && r.zIndex == dto.zIndex
    ensures r.width == dto.width && r.height == dto.height
  {
    Widget(None, dto.x, dto.y, dto.zIndex, dto.width, dto.height, None)
  }

  /** `WidgetDto.fromEntity`: every field carried over unchanged. */
  function FromEntity(entity: Widget): (r: WidgetDto)
    ensures r.id == entity.id && r.x == entity.x && r.y == entity.y && r.zIndex == entity.zIndex
    ensures r.width == entity.width && r.height == entity.height && r.modifiedAt == entity.modifiedAt
  {
    WidgetDto(entity.id, entity.x, entity.y, entity.zIndex, entity.width, entity.height, entity.modifiedAt)
  }

  /** `incrementZIndex` on a fresh copy: the z-index goes up by one and
      nothing else changes. Incrementing a null z-index throws in Java. */
  function IncrementZIndex(w: Widget): (r: Widget)
    requires w.zIndex.Some?
    ensures r.zIndex == Some(w.zIndex.value + 1)
    ensures r == w.(zIndex := r.zIndex)
  {
    w.(zIndex := Some(w.zIndex.value + 1))
  }

  /** `fromDto` then `fromEntity` gives back the DTO's geometry and z-index,
      with id and modification time cleared. */
  lemma DtoRoundTrip(dto: WidgetDto)
    ensures FromEntity(FromDto(dto)) == dto.(id := None, modifiedAt := None)
  {
  }

  /** `fromEntity` then `fromDto` gives back the widget without id and time. */
  lemma EntityRoundTrip(w: Widget)
    ensures FromDto(FromEntity(w)) == w.(id := None, modifiedAt := None)
  {
  }

  /** Changing a copy's z-index leaves the original, and the copy's other
      fields, as they were. */
  lemma CopyIsIndependent(w: Widget, z: int)
    ensures Copy(w) == w
    ensures Copy(w).(zIndex := Some(z)).zIndex == Some(z)
    ensures w.zIndex != Some(z) ==> Copy(w).(zIndex := Some(z)) != w
  {
  }
}
