/** Rectangle geometry for area selection: whether two rectangles meet, and
    the rectangle spanned by two pointer positions in percent of a
    container. */
module CoordinateMath {
  import opened Common

  datatype Rect = Rect(x: real, y: real, width: real, height: real)

  datatype Point = Point(x: real, y: real)

  /** A container's box on the page: `left`, `top`, `width`, `height`. */
  datatype Container = Container(left: real, top: real, width: real, height: real)

  /** The closed ranges [lo1, hi1] and [lo2, hi2] share a point. */
  predicate RangesMeet(lo1: real, hi1: real, lo2: real, hi2: real)
  {
    lo1 <= hi2 && lo2 <= hi1
  }

  /** `isIntersecting(a, b)`: neither lies wholly to one side of the other;
      shared edges count. */
  function IsIntersecting(a: Rect, b: Rect): (r: bool)
    ensures r <==> RangesMeet(a.x, a.x + a.width, b.x, b.x + b.width)
                   && RangesMeet(a.y, a.y + a.height, b.y, b.y + b.height)
  {
    !(a.x > b.x + b.width || a.x + a.width < b.x || a.y > b.y + b.height || a.y + a.height < b.y)
  }

  /** Intersection does not depend on the order of the rectangles. */
  lemma IntersectingSymmetric(a: Rect, b: Rect)
    ensures IsIntersecting(a, b) == IsIntersecting(b, a)
  {
  }

  /** A rectangle of non-negative size meets itself. */
  lemma SelfIntersecting(a: Rect)
    requires a.width >= 0.0 && a.height >= 0.0
    ensures IsIntersecting(a, a)
  {
  }

  /** Rectangles side by side that only share an edge still meet. */
  lemma TouchingEdgesMeet(a: Rect, b: Rect)
    requires a.width >= 0.0 && b.width >= 0.0 && a.x + a.width == b.x
    requires RangesMeet(a.y, a.y + a.height, b.y, b.y + b.height)
    ensures IsIntersecting(a, b)
  {
  }

  function MinReal(a: real, b: real): real { if a <= b then a else b }

  function MaxReal(a: real, b: real): real { if a >= b then a else b }

  /** `getRelativeRect(start, end, container)`: the box spanned by the two
      points, in percent of the container; None when the container has no
      width or height, where the division gives no finite number. */
  function GetRelativeRect(start: Point, end: Point, c: Container): (r: Option<Rect>)
    ensures r.None? <==> c.width == 0.0 || c.height == 0.0
    ensures r.Some? && c.width > 0.0 && c.height > 0.0 ==> r.value.width >= 0.0 && r.value.height >= 0.0
  {
    if c.width == 0.0 || c.height == 0.0 then None
    else
      var minX, maxX := MinReal(start.x, end.x), MaxReal(start.x, end.x);
      var minY, maxY := MinReal(start.y, end.y), MaxReal(start.y, end.y);
      assert maxX - minX >= 0.0 && maxY - minY >= 0.0;
      Some(Rect((minX - c.left) / c.width * 100.0, (minY - c.top) / c.height * 100.0,
                (maxX - minX) / c.width * 100.0, (maxY - minY) / c.height * 100.0))
  }

  /** Dragging from either end gives the same rectangle. */
  lemma RelativeRectSymmetric(start: Point, end: Point, c: Container)
    ensures GetRelativeRect(start, end, c) == GetRelativeRect(end, start, c)
  {
  }

  /** Both points inside the container give a rectangle inside [0, 100]. */
  lemma RelativeRectInside(start: Point, end: Point, c: Container)
    requires c.width > 0.0 && c.height > 0.0
    requires c.left <= start.x <= c.left + c.width && c.left <= end.x <= c.left + c.width
    requires c.top <= start.y <= c.top + c.height && c.top <= end.y <= c.top + c.height
    ensures var r := GetRelativeRect(start, end, c).value;
      0.0 <= r.x && r.x + r.width <= 100.0 && 0.0 <= r.y && r.y + r.height <= 100.0
  {
    AxisInside(MinReal(start.x, end.x), MaxReal(start.x, end.x), c.left, c.width);
    AxisInside(MinReal(start.y, end.y), MaxReal(start.y, end.y), c.top, c.height);
  }

  /** On one axis: from `origin`, positions lo <= hi inside a span of `size`
      give an offset and extent whose percentages stay within [0, 100]. */
  lemma AxisInside(lo: real, hi: real, origin: real, size: real)
    requires size > 0.0 && origin <= lo <= hi <= origin + size
    ensures 0.0 <= (lo - origin) / size * 100.0
    ensures (lo - origin) / size * 100.0 + (hi - lo) / size * 100.0 <= 100.0
  {
    var a, b := lo - origin, hi - lo;
    assert a / size + b / size == (a + b) / size;
    assert (a + b) / size <= 1.0;
    assert a / size * 100.0 + b / size * 100.0 == (a / size + b / size) * 100.0;
  }
}
