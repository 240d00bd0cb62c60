// graphene_point_t: the comparisons are predicates on the pointer pair,
// the operations writing an out-parameter return the value written.

module Points {

  import opened Common
  import P = Private

  datatype Point = Point(x: real, y: real)

  /** graphene_point_near: NULL arguments fail the precondition check and
    * give false (even two NULLs), the same pointer gives true, otherwise
    * both deltas must be strictly below epsilon. */
  function Near(p: PtrPair<Point>, epsilon: real): bool
  {
    match p
    case BothNull => false
    case OneNull => false
    case Same(_) => true
    case Distinct(a, b) => Abs(a.x - b.x) < epsilon && Abs(a.y - b.y) < epsilon
  }

  /** graphene_point_equal: the same pointer (two NULLs included) is equal,
    * one NULL is not, otherwise near with GRAPHENE_FLOAT_EPSILON. */
  function Equal(p: PtrPair<Point>): bool
  {
    if p.BothNull? || p.Same? then true
    else if p.OneNull? then false
    else Near(p, P.FloatEpsilon)
  }

  /** equal is graphene_pointer_equal over near with the float epsilon. */
  lemma EqualIsPointerEqual(p: PtrPair<Point>)
    ensures Equal(p) == PointerEqual(p, (a, b) => Near(Distinct(a, b), P.FloatEpsilon))
  {
  }

  /** With epsilon 0 only the same pointer is near; a positive epsilon makes
    * copies near; nearness is symmetric and needs both axes. */
  lemma NearProperties(a: Point, b: Point, epsilon: real)
    ensures Near(Same(a), 0.0) && !Near(Distinct(a, a), 0.0)
    ensures epsilon > 0.0 ==> Near(Distinct(a, a), epsilon)
    ensures Near(Distinct(a, b), epsilon) <==> Near(Distinct(b, a), epsilon)
    ensures !Near(BothNull, epsilon) && !Near(OneNull, epsilon)
    ensures Near(Distinct(Point(0.0, 0.0), Point(0.5, 2.0)), 1.0) == false
  {
    assert Abs(a.x - b.x) == Abs(b.x - a.x);
    assert Abs(a.y - b.y) == Abs(b.y - a.y);
  }

  /** What graphene_point_distance produces: the |dx| and |dy| written into
    * the out-parameters that are not NULL, and the square of the returned
    * length. */
  datatype Distance = Distance(dx: Option<real>, dy: Option<real>, lengthSquared: real)

  function DistanceOf(p: PtrPair<Point>, wantX: bool, wantY: bool): (r: Distance)
    ensures !p.Distinct? ==> r == Distance(None, None, 0.0)
    ensures p.Distinct? ==> (r.dx.Some? <==> wantX) && (r.dy.Some? <==> wantY)
    ensures p.Distinct? && wantX ==> r.dx.value >= 0.0 && (r.dx.value == p.a.x - p.b.x || r.dx.value == p.b.x - p.a.x)
    ensures p.Distinct? && wantY ==> r.dy.value >= 0.0 && (r.dy.value == p.a.y - p.b.y || r.dy.value == p.b.y - p.a.y)
    ensures r.lengthSquared >= 0.0
  {
    match p
    case Distinct(a, b) =>
      var dx, dy := a.x - b.x, a.y - b.y;
      SquareNonNegative(dx);
      SquareNonNegative(dy);
      Distance(if wantX then Some(Abs(dx)) else None, if wantY then Some(Abs(dy)) else None, dx * dx + dy * dy)
    case _ => Distance(None, None, 0.0)
  }

  lemma SquareNonNegative(u: real)
    ensures u * u >= 0.0
  {
    if u < 0.0 {
      assert u * u == (-u) * (-u);
    }
  }

  /** A point is at distance 0 from a copy of itself. */
  lemma DistanceToCopy(a: Point)
    ensures DistanceOf(Distinct(a, a), true, true) == Distance(Some(0.0), Some(0.0), 0.0)
  {
  }

  /** graphene_point_interpolate: a + (b - a) * factor per axis. */
  function Interpolate(a: Point, b: Point, factor: real): Point
  {
    Point(a.x + (b.x - a.x) * factor, a.y + (b.y - a.y) * factor)
  }

  lemma InterpolateEnds(a: Point, b: Point, factor: real)
    ensures Interpolate(a, b, 0.0) == a && Interpolate(a, b, 1.0) == b
    ensures Interpolate(a, b, factor) == Point(P.Lerp(a.x, b.x, factor), P.Lerp(a.y, b.y, factor))
  {
  }
}
