/** `rect_to_poly` (app.py:42-50): the room outlines of the floor plans are
    polygons, and a rectangular room is given by two opposite corners. */
module Floorplan {

  /** A pixel position `[x, y]` on a floor-plan image. */
  datatype Point = Point(x: int, y: int)

  /** The rectangle with opposite corners `p1` and `p2`, as four vertices
      starting at `p1`, going along `p1`'s column first and reaching `p2`
      third. Every edge, the closing one included, is horizontal or vertical,
      and each vertex takes its column from one corner and its row from one
      corner. */
  function RectToPoly(p1: Point, p2: Point): (r: seq<Point>)
    ensures |r| == 4
    ensures r[0] == p1 && r[2] == p2
    ensures r[1].x == p1.x
    ensures forall i :: 0 <= i < 4 ==> AxisAligned(Edge(r, i))
    ensures forall v :: v in r ==> (v.x == p1.x || v.x == p2.x) && (v.y == p1.y || v.y == p2.y)
  {
    [Point(p1.x, p1.y), Point(p1.x, p2.y), Point(p2.x, p2.y), Point(p2.x, p1.y)]
  }

  /** Edge `i` of the closed polygon `ps`: from vertex `i` to the next one,
      the last vertex joining back to the first. */
  function Edge(ps: seq<Point>, i: nat): (Point, Point)
    requires i < |ps|
  {
    (ps[i], ps[(i + 1) % |ps|])
  }

  /** A horizontal or vertical segment. */
  predicate AxisAligned(e: (Point, Point))
  {
    e.0.x == e.1.x || e.0.y == e.1.y
  }

  /** The cross product of two position vectors. */
  function Cross(a: Point, b: Point): int
  {
    a.x * b.y - b.x * a.y
  }

  /** The shoelace sum over the first `n` edges of the closed polygon `ps`:
      over all edges, twice the signed area enclosed. */
  function EdgeSum(ps: seq<Point>, n: nat): int
    requires n <= |ps|
  {
    if n == 0 then 0 else EdgeSum(ps, n - 1) + Cross(ps[n - 1], ps[n % |ps|])
  }

  /** Every corner of the rectangle appears among the vertices. */
  lemma RectCorners(p1: Point, p2: Point)
    ensures forall v: Point :: (v.x == p1.x || v.x == p2.x) && (v.y == p1.y || v.y == p2.y) ==> v in RectToPoly(p1, p2)
  {
    var r := RectToPoly(p1, p2);
    forall v: Point | (v.x == p1.x || v.x == p2.x) && (v.y == p1.y || v.y == p2.y)
      ensures v in r
    {
      if v.x == p1.x && v.y == p1.y {
        assert v == r[0];
      } else if v.x == p1.x {
        assert v == r[1];
      } else if v.y == p2.y {
        assert v == r[2];
      } else {
        assert v == r[3];
      }
    }
  }

  /** The polygon encloses the rectangle's area, |x2 - x1| * |y2 - y1|: its
      shoelace sum is twice that, signed by the orientation of the corners. */
  lemma RectArea(p1: Point, p2: Point)
    ensures EdgeSum(RectToPoly(p1, p2), 4) == 2 * (p1.x - p2.x) * (p2.y - p1.y)
  {
    var r := RectToPoly(p1, p2);
    assert EdgeSum(r, 1) == Cross(r[0], r[1]);
    assert EdgeSum(r, 2) == EdgeSum(r, 1) + Cross(r[1], r[2]);
    assert EdgeSum(r, 3) == EdgeSum(r, 2) + Cross(r[2], r[3]);
    assert EdgeSum(r, 4) == EdgeSum(r, 3) + Cross(r[3], r[0]);
  }

  /** Swapping the corners gives the same rectangle, entered at the opposite
      corner and traversed in the same rotational direction. */
  lemma RectSwap(p1: Point, p2: Point)
    ensures RectToPoly(p2, p1) == RectToPoly(p1, p2)[2..] + RectToPoly(p1, p2)[..2]
  {
  }

  /** The four vertices are pairwise distinct exactly when the corners differ
      in both coordinates; otherwise the polygon is degenerate. */
  lemma RectDistinct(p1: Point, p2: Point)
    ensures (forall i, j :: 0 <= i < j < 4 ==> RectToPoly(p1, p2)[i] != RectToPoly(p1, p2)[j])
        <==> p1.x != p2.x && p1.y != p2.y
  {
    var r := RectToPoly(p1, p2);
    if p1.x == p2.x {
      assert r[0] == r[3];
    } else if p1.y == p2.y {
      assert r[0] == r[1];
    }
  }
}
