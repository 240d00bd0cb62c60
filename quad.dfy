// graphene_quad_t: four points in an array, written by the initialisers;
// `bounds` scans them for the extreme coordinates.

module Quads {

  import P = Private
  import opened Points
  import R = Rects
  import L = LineSegments

  /** graphene_quad_contains on the four points: p must be on the same side
    * of every edge as the vertex opposite that edge. */
  predicate ContainsAll(pts: seq<Point>, p: Point)
    requires |pts| == 4
  {
    L.PointsOnSameSide(L.Init(pts[0], pts[1]), p, pts[2]) &&
    L.PointsOnSameSide(L.Init(pts[1], pts[2]), p, pts[3]) &&
    L.PointsOnSameSide(L.Init(pts[2], pts[3]), p, pts[0]) &&
    L.PointsOnSameSide(L.Init(pts[3], pts[0]), p, pts[1])
  }

  /** The containment test on the convex quad (0, 0), (10, 1), (10, 9),
    * (0, 10): its vertices and (5, 5) are inside, (10, 10) is not. */
  lemma ContainsExample()
    ensures var q := [Point(0.0, 0.0), Point(10.0, 1.0), Point(10.0, 9.0), Point(0.0, 10.0)];
      ContainsAll(q, q[0]) && ContainsAll(q, q[1]) && ContainsAll(q, q[2]) && ContainsAll(q, q[3]) &&
      ContainsAll(q, Point(5.0, 5.0)) && !ContainsAll(q, Point(10.0, 10.0))
  {
  }

  /** Each vertex of any quad passes the two edges it lies on. */
  lemma VertexOnItsEdges(pts: seq<Point>)
    requires |pts| == 4
    ensures L.PointsOnSameSide(L.Init(pts[0], pts[1]), pts[0], pts[2])
    ensures L.PointsOnSameSide(L.Init(pts[3], pts[0]), pts[0], pts[1])
  {
    L.SameSideProperties(L.Init(pts[0], pts[1]), pts[0], pts[2]);
    L.SameSideProperties(L.Init(pts[3], pts[0]), pts[0], pts[1]);
  }

  class Quad {
    const points: array<Point>

    ghost predicate Valid()
      reads this
    {
      points.Length == 4
    }

    constructor ()
      ensures Valid() && fresh(points)
    {
      points := new Point[4](_ => Point(0.0, 0.0));
    }

    /** graphene_quad_init: the four points in argument order. */
    method Init(p1: Point, p2: Point, p3: Point, p4: Point)
      requires Valid()
      modifies points
      ensures points[..] == [p1, p2, p3, p4]
    {
      points[0] := p1;
      points[1] := p2;
      points[2] := p3;
      points[3] := p4;
    }

    /** graphene_quad_init_from_rect: top-left, top-right, bottom-right,
      * bottom-left of the normalised rectangle. */
    method InitFromRect(r: R.Rect)
      requires Valid()
      modifies points
      ensures points[..] == [R.TopLeft(r), R.TopRight(r), R.BottomRight(r), R.BottomLeft(r)]
    {
      points[0] := R.TopLeft(r);
      points[1] := R.TopRight(r);
      points[2] := R.BottomRight(r);
      points[3] := R.BottomLeft(r);
    }

    predicate Contains(p: Point)
      requires Valid()
      reads this, points
    {
      ContainsAll(points[..], p)
    }

    /** graphene_quad_bounds: the tightest rectangle around the four points;
      * every point lies in it and each edge passes through one of them. */
    method Bounds() returns (r: R.Rect)
      requires Valid()
      ensures R.IsNormal(r)
      ensures forall i :: 0 <= i < 4 ==> R.ContainsPoint(r, points[i])
      ensures exists i :: 0 <= i < 4 && points[i].x == r.origin.x
      ensures exists i :: 0 <= i < 4 && points[i].y == r.origin.y
      ensures exists i :: 0 <= i < 4 && points[i].x == R.Right(r)
      ensures exists i :: 0 <= i < 4 && points[i].y == R.Bottom(r)
    {
      var minX, maxX := points[0].x, points[0].x;
      var minY, maxY := points[0].y, points[0].y;
      var i := 1;
      while i < 4
        invariant 1 <= i <= 4
        invariant forall k :: 0 <= k < i ==> minX <= points[k].x <= maxX && minY <= points[k].y <= maxY
        invariant exists k :: 0 <= k < i && points[k].x == minX
        invariant exists k :: 0 <= k < i && points[k].x == maxX
        invariant exists k :: 0 <= k < i && points[k].y == minY
        invariant exists k :: 0 <= k < i && points[k].y == maxY
      {
        minX := P.Min(points[i].x, minX);
        minY := P.Min(points[i].y, minY);
        maxX := P.Max(points[i].x, maxX);
        maxY := P.Max(points[i].y, maxY);
        i := i + 1;
      }
      r := R.Normalize(R.MakeRect(minX, minY, maxX - minX, maxY - minY));
    }
  }

  /** A quad built from a rectangle has that rectangle's corners, and its
    * bounds are the normalised rectangle. */
  method BoundsOfRect(r: R.Rect) returns (b: R.Rect)
    ensures b == R.Normalize(r)
  {
    var q := new Quad();
    q.InitFromRect(r);
    b := q.Bounds();
    var n := R.Normalize(r);
    assert q.points[0] == R.TopLeft(r) && q.points[2] == R.BottomRight(r);
    assert b.origin.x <= n.origin.x && R.Right(n) <= R.Right(b);
  }
}
