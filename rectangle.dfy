// Rectangle: an axis-aligned box, and the closed-bounds intersection test.
module Rectangles {
  import opened Wrappers

  datatype Rectangle = Rectangle(x: real, y: real, width: real, height: real)
  {
    /** The instance intersect: the static test with this as its first argument. */
    predicate Intersects(other: Rectangle)
    {
      Intersect(Some(this), Some(other))
    }

    /** A point lies in the closed box (for non-negative width and height). */
    predicate Holds(px: real, py: real)
    {
      x <= px <= x + width && y <= py <= y + height
    }

    predicate NonNegative()
    {
      width >= 0.0 && height >= 0.0
    }
  }

  /** The constructor's argument forms: nothing, four numbers, or a rectangle-like object. */
  datatype RectangleArgs =
    | NoArguments
    | Numbers(nx: real, ny: Option<real>, nwidth: Option<real>, nheight: Option<real>)
    | Like(lx: Option<real>, ly: Option<real>, lwidth: Option<real>, lheight: Option<real>)

  function OrZero(v: Option<real>): real
  {
    if v.Some? then v.value else 0.0
  }

  /** The constructor: every field that is not given is 0. */
  function Make(args: RectangleArgs): (r: Rectangle)
    ensures args.NoArguments? ==> r == Rectangle(0.0, 0.0, 0.0, 0.0)
    ensures args.Numbers? ==> r.x == args.nx
    ensures args.Numbers? ==> (args.ny.Some? ==> r.y == args.ny.value) && (args.ny.None? ==> r.y == 0.0)
    ensures args.Numbers? ==> (args.nwidth.Some? ==> r.width == args.nwidth.value) && (args.nwidth.None? ==> r.width == 0.0)
    ensures args.Numbers? ==> (args.nheight.Some? ==> r.height == args.nheight.value) && (args.nheight.None? ==> r.height == 0.0)
    ensures args.Like? ==> (args.lx.Some? ==> r.x == args.lx.value) && (args.lx.None? ==> r.x == 0.0)
    ensures args.Like? ==> (args.ly.Some? ==> r.y == args.ly.value) && (args.ly.None? ==> r.y == 0.0)
    ensures args.Like? ==> (args.lwidth.Some? ==> r.width == args.lwidth.value) && (args.lwidth.None? ==> r.width == 0.0)
    ensures args.Like? ==> (args.lheight.Some? ==> r.height == args.lheight.value) && (args.lheight.None? ==> r.height == 0.0)
  {
    match args
    case NoArguments => Rectangle(0.0, 0.0, 0.0, 0.0)
    case Numbers(nx, ny, nw, nh) => Rectangle(nx, OrZero(ny), OrZero(nw), OrZero(nh))
    case Like(lx, ly, lw, lh) => Rectangle(OrZero(lx), OrZero(ly), OrZero(lw), OrZero(lh))
  }

  /** The static intersect: false when either argument is missing, else the four closed-bound tests. */
  predicate Intersect(a: Option<Rectangle>, b: Option<Rectangle>)
  {
    a.Some? && b.Some? &&
    var ra, rb := a.value, b.value;
    rb.x <= ra.x + ra.width && rb.x + rb.width >= ra.x && rb.y <= ra.y + ra.height && rb.y + rb.height >= ra.y
  }

  /** A missing argument never intersects. */
  lemma IntersectMissing(r: Option<Rectangle>)
    ensures !Intersect(None, r) && !Intersect(r, None)
  {
  }

  /** intersect does not depend on the order of its arguments. */
  lemma IntersectSymmetric(a: Option<Rectangle>, b: Option<Rectangle>)
    ensures Intersect(a, b) <==> Intersect(b, a)
  {
  }

  /** For boxes of non-negative size, intersect holds exactly when some point lies in both closed boxes. */
  lemma IntersectCommonPoint(a: Rectangle, b: Rectangle)
    requires a.NonNegative() && b.NonNegative()
    ensures Intersect(Some(a), Some(b)) <==> exists px, py :: a.Holds(px, py) && b.Holds(px, py)
  {
    if Intersect(Some(a), Some(b)) {
      var px := if a.x >= b.x then a.x else b.x;
      var py := if a.y >= b.y then a.y else b.y;
      assert a.Holds(px, py) && b.Holds(px, py);
    }
  }

  /** Boxes that only touch along an edge count as intersecting. */
  lemma TouchingIntersect(a: Rectangle, b: Rectangle)
    requires b.x == a.x + a.width && a.y == b.y
    requires a.NonNegative() && b.NonNegative()
    ensures Intersect(Some(a), Some(b))
  {
  }

  /** A 0 by 0 box intersects r exactly when its point lies in r's closed bounds (r of any size). */
  lemma PointIntersect(px: real, py: real, r: Rectangle)
    ensures Intersect(Some(r), Some(Rectangle(px, py, 0.0, 0.0))) <==> r.Holds(px, py)
    ensures Intersect(Some(Rectangle(px, py, 0.0, 0.0)), Some(r)) <==> r.Holds(px, py)
  {
  }
}
