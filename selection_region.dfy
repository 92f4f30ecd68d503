// The region both selections compute from two corner points, and the
// `contains` test both run against it.
module SelectionRegions {
  import opened Wrappers
  import opened Vectors
  import opened Rectangles

  function Min(a: real, b: real): real { if a <= b then a else b }
  function Max(a: real, b: real): real { if a <= b then b else a }

  /** computeRegion: no region unless both points exist; otherwise the min corner with non-negative spans. */
  function ComputeRegion(start: Option<Vector2>, end: Option<Vector2>): (r: Option<Rectangle>)
    ensures r.Some? <==> start.Some? && end.Some?
    ensures r.Some? ==> r.value.NonNegative()
    ensures r.Some? ==> r.value.Holds(start.value.x, start.value.y) && r.value.Holds(end.value.x, end.value.y)
    ensures r.Some? ==> (r.value.x == start.value.x || r.value.x == end.value.x)
    ensures r.Some? ==> (r.value.y == start.value.y || r.value.y == end.value.y)
    ensures r.Some? ==> (r.value.x + r.value.width == start.value.x || r.value.x + r.value.width == end.value.x)
    ensures r.Some? ==> (r.value.y + r.value.height == start.value.y || r.value.y + r.value.height == end.value.y)
  {
    if start.None? || end.None? then None
    else
      var s, e := start.value, end.value;
      var sx, sy := Min(s.x, e.x), Min(s.y, e.y);
      var ex, ey := Max(s.x, e.x), Max(s.y, e.y);
      Some(Rectangle(sx, sy, ex - sx, ey - sy))
  }

  /** The region is the smallest closed box holding both points: any box that holds them holds all of it. */
  lemma RegionSmallest(s: Vector2, e: Vector2, box: Rectangle, px: real, py: real)
    requires box.Holds(s.x, s.y) && box.Holds(e.x, e.y)
    requires ComputeRegion(Some(s), Some(e)).value.Holds(px, py)
    ensures box.Holds(px, py)
  {
  }

  /** Swapping the two points gives the same region. */
  lemma RegionSymmetric(start: Option<Vector2>, end: Option<Vector2>)
    ensures ComputeRegion(start, end) == ComputeRegion(end, start)
  {
  }

  /** What `contains` receives: a point, or a rectangle whose missing width or height counts as 0. */
  datatype Coord = Coord(x: real, y: real, width: Option<real>, height: Option<real>)

  /** The coordinate as the box `contains` tests. */
  function AsBox(c: Coord): (b: Rectangle)
    ensures c.width.None? ==> b.width == 0.0
    ensures c.height.None? ==> b.height == 0.0
    ensures b.x == c.x && b.y == c.y
  {
    Rectangle(c.x, c.y, OrZero(c.width), OrZero(c.height))
  }

  /** contains: false without a region, else the closed-bounds intersection of the region and the coordinate. */
  predicate RegionContains(region: Option<Rectangle>, c: Coord)
  {
    region.Some? && Intersect(region, Some(AsBox(c)))
  }

  /** For a point, contains is exactly "the point lies in the region's closed bounds". */
  lemma ContainsPoint(region: Option<Rectangle>, px: real, py: real)
    ensures RegionContains(region, Coord(px, py, None, None)) <==> region.Some? && region.value.Holds(px, py)
  {
    if region.Some? {
      PointIntersect(px, py, region.value);
    }
  }

  /** Both corner points of a selection are contained in it. */
  lemma ContainsCorners(s: Vector2, e: Vector2)
    ensures RegionContains(ComputeRegion(Some(s), Some(e)), Coord(s.x, s.y, None, None))
    ensures RegionContains(ComputeRegion(Some(s), Some(e)), Coord(e.x, e.y, None, None))
  {
    ContainsPoint(ComputeRegion(Some(s), Some(e)), s.x, s.y);
    ContainsPoint(ComputeRegion(Some(s), Some(e)), e.x, e.y);
  }
}
