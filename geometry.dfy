/** Points and axis-aligned rectangles (Point.java, Rectangle.java). */
module Geometry {
  import opened Wrappers

  datatype Point = Point(x: int, y: int)

  /** A rectangle given by its centre, its sides and its two corners. */
  datatype Rectangle = Rectangle(
    x: int, y: int, width: int, height: int,
    bottomLeft: Point, upperRight: Point)

  /** Java's `side / 2` on a long: division truncating toward zero. */
  function Half(side: int): (h: int)
    ensures side >= 0 ==> 0 <= h && h + h <= side < h + h + 2
    ensures side < 0 ==> -h == (-side) / 2
  {
    if side >= 0 then side / 2 else -((-side) / 2)
  }

  /** The lower corner coordinate: half the side, truncated toward zero,
      below the centre (above it for a negative side). */
  function CalculateBottomLeftCoordinate(centre: int, side: int): (c: int)
    ensures side >= 0 ==> c <= centre && 2 * (centre - c) <= side < 2 * (centre - c) + 2
    ensures side < 0 ==> centre <= c && 2 * (c - centre) <= -side < 2 * (c - centre) + 2
  {
    centre - Half(side)
  }

  /** The upper corner coordinate: half the side, truncated toward zero,
      above the centre (below it for a negative side). */
  function CalculateUpperRightCoordinate(centre: int, side: int): (c: int)
    ensures side >= 0 ==> centre <= c && 2 * (c - centre) <= side < 2 * (c - centre) + 2
    ensures side < 0 ==> c <= centre && 2 * (centre - c) <= -side < 2 * (centre - c) + 2
  {
    centre + Half(side)
  }

  /** The centre-and-size constructor: rejects a non-positive width, then a
      non-positive height, and otherwise derives both corners. */
  function FromCentre(x: int, y: int, width: int, height: int): (r: Result<Rectangle>)
    ensures r.Ok? <==> width > 0 && height > 0
    ensures width <= 0 ==> r == Err(IllegalArgument("width"))
    ensures width > 0 && height <= 0 ==> r == Err(IllegalArgument("height"))
    ensures r.Ok? ==> (r.value.x == x && r.value.y == y
                       && r.value.width == width && r.value.height == height)
    ensures r.Ok? ==>
      r.value.bottomLeft == Point(CalculateBottomLeftCoordinate(x, width), CalculateBottomLeftCoordinate(y, height))
      && r.value.upperRight == Point(CalculateUpperRightCoordinate(x, width), CalculateUpperRightCoordinate(y, height))
  {
    if width <= 0 then Err(IllegalArgument("width"))
    else if height <= 0 then Err(IllegalArgument("height"))
    else Ok(Rectangle(x, y, width, height,
                      Point(CalculateBottomLeftCoordinate(x, width), CalculateBottomLeftCoordinate(y, height)),
                      Point(CalculateUpperRightCoordinate(x, width), CalculateUpperRightCoordinate(y, height))))
  }

  /** The corner-pair constructor: rejects a missing corner, then a
      bottom-left corner that is not strictly left of, then not strictly
      below, the upper-right corner; derives sides and centre. */
  function FromCorners(bottomLeft: Option<Point>, upperRight: Option<Point>): (r: Result<Rectangle>)
    ensures r.Ok? <==> bottomLeft.Some? && upperRight.Some?
                       && bottomLeft.value.x < upperRight.value.x
                       && bottomLeft.value.y < upperRight.value.y
    ensures bottomLeft.None? ==> r == Err(NullPointer("bottomLeftPoint"))
    ensures bottomLeft.Some? && upperRight.None? ==> r == Err(NullPointer("upperRightPoint"))
    ensures r.Err? && bottomLeft.Some? && upperRight.Some? ==> r.error.IllegalArgument?
    ensures r.Ok? ==>
      && r.value.bottomLeft == bottomLeft.value && r.value.upperRight == upperRight.value
      && r.value.width == upperRight.value.x - bottomLeft.value.x > 0
      && r.value.height == upperRight.value.y - bottomLeft.value.y > 0
      && r.value.x == bottomLeft.value.x + r.value.width / 2
      && r.value.y == bottomLeft.value.y + r.value.height / 2
  {
    if bottomLeft.None? then Err(NullPointer("bottomLeftPoint"))
    else if upperRight.None? then Err(NullPointer("upperRightPoint"))
    else
      var bl, ur := bottomLeft.value, upperRight.value;
      if bl.x >= ur.x then Err(IllegalArgument("xCoordinate"))
      else if bl.y >= ur.y then Err(IllegalArgument("yCoordinate"))
      else
        var width, height := ur.x - bl.x, ur.y - bl.y;
        Ok(Rectangle(bl.x + Half(width), bl.y + Half(height), width, height, bl, ur))
  }

  /** The corners from a positive side lie `side / 2` either side of the
      centre, so they span the side when it is even and one less when it is
      odd. */
  lemma CornerSpan(centre: int, side: int)
    requires side > 0
    ensures CalculateBottomLeftCoordinate(centre, side) == centre - side / 2
    ensures CalculateUpperRightCoordinate(centre, side) == centre + side / 2
    ensures CalculateUpperRightCoordinate(centre, side) - CalculateBottomLeftCoordinate(centre, side)
            == (if side % 2 == 0 then side else side - 1)
    ensures CalculateBottomLeftCoordinate(centre, side) <= centre <= CalculateUpperRightCoordinate(centre, side)
  {
  }

  /** A widget at x = 10 with width 5 spans 8..12. */
  lemma OddWidthExample()
    ensures FromCentre(10, 10, 5, 4).Ok?
    ensures FromCentre(10, 10, 5, 4).value.bottomLeft.x == 8
    ensures FromCentre(10, 10, 5, 4).value.upperRight.x == 12
  {
  }

  /** Centre and size to corners and back: the centre always survives; a
      side survives exactly when it is even (an odd side loses one unit). */
  lemma {:induction false} CentreCornersRoundTrip(x: int, y: int, width: int, height: int)
    requires width >= 2 && height >= 2
    ensures FromCentre(x, y, width, height).Ok?
    ensures var r := FromCentre(x, y, width, height).value;
            var back := FromCorners(Some(r.bottomLeft), Some(r.upperRight));
            && back.Ok?
            && back.value.x == x && back.value.y == y
            && (back.value.width == width <==> width % 2 == 0)
            && (back.value.height == height <==> height % 2 == 0)
            && back.value.width == width - width % 2
            && back.value.height == height - height % 2
  {
    CornerSpan(x, width);
    CornerSpan(y, height);
  }

  /** A side of 1 collapses both corners of that axis onto the centre, so
      the corner constructor rejects the round trip: on the x axis when the
      width is 1, else on the y axis. */
  lemma {:induction false} UnitSideRoundTripFails(x: int, y: int, width: int, height: int)
    requires width > 0 && height > 0 && (width == 1 || height == 1)
    ensures FromCentre(x, y, width, height).Ok?
    ensures var r := FromCentre(x, y, width, height).value;
            FromCorners(Some(r.bottomLeft), Some(r.upperRight))
              == Err(IllegalArgument(if width == 1 then "xCoordinate" else "yCoordinate"))
  {
    CornerSpan(x, width);
    CornerSpan(y, height);
  }
}
