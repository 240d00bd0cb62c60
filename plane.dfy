// graphene_plane_t: the plane of the points p with normal . p + constant = 0.
// The normal is stored as given; only the operations that normalise it need a
// square root, and they are not part of this model.

module Planes {

  import opened Common
  import S = Simd
  import V = Vectors
  import P3 = Points3D

  datatype Plane = Plane(normal: V.Vec3, constant: real)

  // ----- initialisers and getters -----

  /** graphene_plane_init: a NULL normal is the x axis; the constant is
    * stored unchanged. */
  function Init(normal: Option<V.Vec3>, constant: real): Plane
  {
    Plane(if normal.Some? then normal.value else V.Vec3XAxis, constant)
  }

  /** graphene_plane_init_from_vec4: the normal is the xyz part (w zeroed),
    * the constant is the w lane. */
  function InitFromVec4(src: V.Vec4): Plane
  {
    Plane(S.ZeroW(src), src.w)
  }

  /** graphene_plane_init_from_plane copies both fields. */
  function InitFromPlane(src: Plane): Plane
  {
    Plane(src.normal, src.constant)
  }

  /** graphene_plane_init_from_point: the plane through the point with the
    * given normal, constant = -(point . normal). */
  function InitFromPoint(normal: V.Vec3, point: P3.Point3D): Plane
  {
    Plane(normal, V.Vec3Dot(P3.ToVec3(point), normal) * -1.0)
  }

  /** graphene_plane_get_normal and graphene_plane_get_constant. */
  function GetNormal(p: Plane): V.Vec3 { p.normal }

  function GetConstant(p: Plane): real { p.constant }

  // ----- negate and distance -----

  /** graphene_plane_negate: both the normal and the constant change sign. */
  function Negate(p: Plane): Plane
  {
    Plane(S.Neg(p.normal), p.constant * -1.0)
  }

  /** graphene_plane_distance: the signed distance normal . point +
    * constant (a length only when the normal has length 1). */
  function Distance(p: Plane, point: P3.Point3D): real
  {
    V.Vec3Dot(p.normal, P3.ToVec3(point)) + p.constant
  }

  // ----- equality -----

  /** plane_equal: the normals are vec3-equal and the constants pass
    * graphene_approx_val, which is given here as a parameter. */
  predicate PlaneEqual(a: Plane, b: Plane, approx: (real, real) -> bool)
  {
    V.Vec3EqualValues(a.normal, b.normal) && approx(a.constant, b.constant)
  }

  /** graphene_plane_equal. */
  function Equal(p: PtrPair<Plane>, approx: (real, real) -> bool): bool
  {
    PointerEqual(p, (a, b) => PlaneEqual(a, b, approx))
  }

  // ----- properties -----

  /** The init tests: a NULL normal reads back as the x axis, a given one
    * and the constant read back unchanged, and init_from_plane is a copy. */
  lemma InitReadBack(normal: V.Vec3, constant: real)
    ensures GetNormal(Init(None, constant)) == V.Vec3Init(1.0, 0.0, 0.0)
    ensures GetNormal(Init(Some(normal), constant)) == normal
    ensures GetConstant(Init(Some(normal), constant)) == constant
    ensures GetConstant(Init(None, constant)) == constant
    ensures InitFromPlane(Init(Some(normal), constant)) == Init(Some(normal), constant)
  {
  }

  /** init_from_vec4 inverts the vec4 (normal.x, normal.y, normal.z,
    * constant) of a plane whose normal is a vec3. */
  lemma Vec4RoundTrip(p: Plane, v: V.Vec4)
    requires V.IsVec3(p.normal)
    ensures InitFromVec4(V.GetXYZW(p.normal, p.constant)) == p
    ensures InitFromVec4(v) == Plane(V.Vec3Init(v.x, v.y, v.z), v.w)
  {
  }

  /** The point init_from_point is given lies on the plane, and every other
    * point's distance is its offset from that point along the normal. */
  lemma InitFromPointDistance(normal: V.Vec3, point: P3.Point3D, q: P3.Point3D)
    ensures Distance(InitFromPoint(normal, point), point) == 0.0
    ensures Distance(InitFromPoint(normal, point), q) == V.Vec3Dot(normal, S.Sub(P3.ToVec3(q), P3.ToVec3(point)))
  {
    var n, u, w := normal, P3.ToVec3(point), P3.ToVec3(q);
    assert V.Vec3Dot(u, n) == V.Vec3Dot(n, u);
    assert V.Vec3Dot(n, S.Sub(w, u)) == V.Vec3Dot(n, w) - V.Vec3Dot(n, u);
  }

  /** Negating a plane flips the sign of every distance and keeps the
    * points on the plane; negating twice gives the plane back. */
  lemma NegateFlips(p: Plane, q: P3.Point3D)
    ensures Distance(Negate(p), q) == -Distance(p, q)
    ensures Distance(p, q) == 0.0 <==> Distance(Negate(p), q) == 0.0
    ensures Negate(Negate(p)) == p
  {
    var n, w := p.normal, P3.ToVec3(q);
    assert V.Vec3Dot(S.Neg(n), w) == -V.Vec3Dot(n, w);
  }

  /** The init_from_point and negate pair: the plane through a point with
    * the negated normal is the negated plane. */
  lemma NegateInitFromPoint(normal: V.Vec3, point: P3.Point3D)
    ensures Negate(InitFromPoint(normal, point)) == InitFromPoint(S.Neg(normal), point)
  {
    var n, u := normal, P3.ToVec3(point);
    assert V.Vec3Dot(u, S.Neg(n)) == -V.Vec3Dot(u, n);
  }

  /** equal: identical pointers are equal, a NULL against a plane is not,
    * and when graphene_approx_val is reflexive and symmetric a plane equals
    * a copy of itself and the comparison is symmetric. */
  lemma EqualProperties(a: Plane, b: Plane, approx: (real, real) -> bool)
    requires forall x :: approx(x, x)
    requires forall x, y :: approx(x, y) ==> approx(y, x)
    ensures Equal(Same(a), approx) && Equal(BothNull, approx) && !Equal(OneNull, approx)
    ensures Equal(Distinct(a, a), approx)
    ensures Equal(Distinct(a, b), approx) <==> Equal(Distinct(b, a), approx)
  {
    V.Vec3EqualProperties(a.normal, a.normal);
    V.Vec3EqualProperties(a.normal, b.normal);
    assert approx(a.constant, a.constant);
    assert approx(a.constant, b.constant) ==> approx(b.constant, a.constant);
    assert approx(b.constant, a.constant) ==> approx(a.constant, b.constant);
  }
}
