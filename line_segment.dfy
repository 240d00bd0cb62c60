// graphene_line_segment_t, the private helper the quad uses to test on
// which side of an edge a point lies.

module LineSegments {

  import opened Points
  import S = Simd

  datatype Segment = Segment(start: Point, end: Point)

  /** graphene_line_segment_init copies both points. */
  function Init(start: Point, end: Point): (s: Segment)
    ensures s.start == start && s.end == end
  {
    Segment(start, end)
  }

  /** The signed area term of p against the segment's direction. */
  function Side(s: Segment, p: Point): real
  {
    var dx, dy := s.end.x - s.start.x, s.end.y - s.start.y;
    dx * (p.y - s.start.y) - dy * (p.x - s.start.x)
  }

  /** graphene_line_segment_points_on_same_side: both side terms are
    * non-negative, or both are non-positive. */
  predicate PointsOnSameSide(s: Segment, a: Point, b: Point)
  {
    var one, two := Side(s, a), Side(s, b);
    (one >= 0.0 && two >= 0.0) || (one <= 0.0 && two <= 0.0)
  }

  /** The side term is the z lane of the cross product of the segment's
    * direction and the vector from its start to p. */
  lemma SideIsCross(s: Segment, p: Point)
    ensures Side(s, p) ==
      S.Cross3(S.Simd4(s.end.x - s.start.x, s.end.y - s.start.y, 0.0, 0.0),
               S.Simd4(p.x - s.start.x, p.y - s.start.y, 0.0, 0.0)).z
  {
  }

  /** The test is symmetric and reflexive, a point on the segment's line is
    * on the same side as any point, and two points strictly on opposite
    * sides are not. */
  lemma SameSideProperties(s: Segment, a: Point, b: Point)
    ensures PointsOnSameSide(s, a, b) <==> PointsOnSameSide(s, b, a)
    ensures PointsOnSameSide(s, a, a)
    ensures Side(s, a) == 0.0 ==> PointsOnSameSide(s, a, b)
    ensures Side(s, a) > 0.0 && Side(s, b) < 0.0 ==> !PointsOnSameSide(s, a, b)
    ensures PointsOnSameSide(s, s.start, b) && PointsOnSameSide(s, s.end, b)
  {
    var dx, dy := s.end.x - s.start.x, s.end.y - s.start.y;
    assert Side(s, s.end) == dx * dy - dy * dx == 0.0;
  }
}
