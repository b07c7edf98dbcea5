/**
 * The two java.awt.Rectangle tests the game relies on: `intersects`, used for
 * plane/bullet collisions, and `contains(Point)`, used to hit-test menu buttons.
 * Coordinates are unbounded integers (the 32-bit overflow guards of the library
 * never matter for on-screen rectangles).
 */
module Geometry {

  datatype Point = Point(x: int, y: int)

  datatype Rect = Rect(x: int, y: int, width: int, height: int)

  /** A rectangle with positive area; java.awt treats every other one as empty. */
  predicate NonEmpty(r: Rect) {
    r.width > 0 && r.height > 0
  }

  /**
   * The test java.awt.Rectangle.intersects performs: false when either rectangle
   * is empty, otherwise the half-open x-intervals and y-intervals must both overlap.
   */
  predicate Overlap(a: Rect, b: Rect) {
    && NonEmpty(a) && NonEmpty(b)
    && b.x + b.width > a.x && a.x + a.width > b.x
    && b.y + b.height > a.y && a.y + a.height > b.y
  }

  /** java.awt.Rectangle.contains(Point): x <= px < x + width and y <= py < y + height. */
  predicate Contains(r: Rect, p: Point): (c: bool)
    ensures c ==> NonEmpty(r)
  {
    r.x <= p.x < r.x + r.width && r.y <= p.y < r.y + r.height
  }

  /** The corner of the overlap of two rectangles; a common point whenever they overlap. */
  function OverlapCorner(a: Rect, b: Rect): (p: Point)
    ensures Overlap(a, b) ==> Contains(a, p) && Contains(b, p)
  {
    Point(if a.x < b.x then b.x else a.x, if a.y < b.y then b.y else a.y)
  }

  /** The interval test is the same as sharing at least one pixel. */
  lemma OverlapIffCommonPoint(a: Rect, b: Rect)
    ensures Overlap(a, b) <==> exists p :: Contains(a, p) && Contains(b, p)
  {
    if Overlap(a, b) {
      var p := OverlapCorner(a, b);
      assert Contains(a, p) && Contains(b, p);
    }
    if exists p :: Contains(a, p) && Contains(b, p) {
      var p :| Contains(a, p) && Contains(b, p);
      assert a.x <= p.x < b.x + b.width;
    }
  }

  /**
   * java.awt.Rectangle.intersects, stated against its reference definition: two
   * rectangles intersect exactly when some pixel lies in both.
   */
  predicate Intersects(a: Rect, b: Rect): (r: bool)
    ensures r <==> exists p :: Contains(a, p) && Contains(b, p)
  {
    OverlapIffCommonPoint(a, b);
    Overlap(a, b)
  }

  /** Collision is symmetric: the plane hits the bullet exactly when the bullet hits the plane. */
  lemma IntersectsSymmetric(a: Rect, b: Rect)
    ensures Intersects(a, b) == Intersects(b, a)
  {
  }

  /** Rectangles that only share an edge (or a corner) do not intersect. */
  lemma EdgeContactIsNoHit(a: Rect, b: Rect)
    requires b.x == a.x + a.width || b.y == a.y + a.height
    ensures !Intersects(a, b)
  {
  }

  /** Hit-testing a point is intersecting with the 1x1 rectangle at that point. */
  lemma ContainsIffUnitIntersects(r: Rect, p: Point)
    ensures Contains(r, p) <==> Intersects(r, Rect(p.x, p.y, 1, 1))
  {
  }
}
