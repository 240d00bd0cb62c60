// graphene_point3d_t: three coordinates. The operations go through a simd4f
// whose w lane is 0; those writing `res` return the value written.

module Points3D {

  import opened Common
  import P = Private
  import S = Simd
  import V = Vectors
  import R = Rects

  datatype Point3D = Point3D(x: real, y: real, z: real)

  /** graphene_point3d_to_vec3: simd4f_init(x, y, z, 0). */
  function ToVec3(p: Point3D): V.Vec3 { S.Simd4(p.x, p.y, p.z, 0.0) }

  /** graphene_point3d_init_from_vec3: dup_3f of the vector's lanes. */
  function InitFromVec3(v: V.Vec3): Point3D { Point3D(v.x, v.y, v.z) }

  /** The two conversions are inverse on points and on vec3s (w lane 0). */
  lemma Vec3RoundTrip(p: Point3D, v: V.Vec3)
    ensures InitFromVec3(ToVec3(p)) == p && V.IsVec3(ToVec3(p))
    ensures V.IsVec3(v) ==> ToVec3(InitFromVec3(v)) == v
    ensures ToVec3(p) == V.Vec3Init(p.x, p.y, p.z)
  {
  }

  /** graphene_point3d_near: the same pointer (two NULLs included) is near;
    * otherwise every coordinate delta is strictly below epsilon. A single
    * NULL is dereferenced, so the source requires it away. */
  function Near(p: PtrPair<Point3D>, epsilon: real): bool
    requires !p.OneNull?
  {
    match p
    case Distinct(a, b) =>
      var d := S.Sub(ToVec3(a), ToVec3(b));
      Abs(d.x) < epsilon && Abs(d.y) < epsilon && Abs(d.z) < epsilon
    case _ => true
  }

  /** graphene_point3d_equal: graphene_pointer_equal over near with the
    * float epsilon. */
  function Equal(p: PtrPair<Point3D>): bool
  {
    PointerEqual(p, (a, b) => Near(Distinct(a, b), P.FloatEpsilon))
  }

  /** near is symmetric, and holds between copies exactly when epsilon is
    * positive; equal accepts a point and its copy and rejects one NULL. */
  lemma NearProperties(a: Point3D, b: Point3D, epsilon: real)
    ensures Near(Distinct(a, b), epsilon) <==> Near(Distinct(b, a), epsilon)
    ensures Near(Distinct(a, a), epsilon) <==> epsilon > 0.0
    ensures Near(Distinct(a, b), epsilon) ==> Abs(a.x - b.x) < epsilon && Abs(a.y - b.y) < epsilon && Abs(a.z - b.z) < epsilon
    ensures Equal(Distinct(a, a)) && Equal(Same(a)) && !Equal(OneNull)
  {
    assert Abs(a.x - b.x) == Abs(b.x - a.x);
    assert Abs(a.y - b.y) == Abs(b.y - a.y);
    assert Abs(a.z - b.z) == Abs(b.z - a.z);
  }

  /** graphene_point3d_scale: the coordinates times splat(factor). */
  function Scale(p: Point3D, factor: real): Point3D
  {
    InitFromVec3(S.Mul(ToVec3(p), S.Splat(factor)))
  }

  lemma ScaleCoordinates(p: Point3D, factor: real)
    ensures Scale(p, factor) == Point3D(p.x * factor, p.y * factor, p.z * factor)
    ensures Scale(p, 1.0) == p && Scale(p, 0.0) == Point3D(0.0, 0.0, 0.0)
  {
  }

  /** graphene_point3d_cross: cross3 of the two vectors. */
  function Cross(a: Point3D, b: Point3D): Point3D
  {
    InitFromVec3(S.Cross3(ToVec3(a), ToVec3(b)))
  }

  /** graphene_point3d_dot: dot3 of the two vectors. */
  function Dot(a: Point3D, b: Point3D): real
  {
    S.Dot3(ToVec3(a), ToVec3(b)).x
  }

  /** cross and dot agree with the vec3 versions on the same coordinates,
    * and the cross product is orthogonal to both operands. */
  lemma CrossDotAgree(a: Point3D, b: Point3D)
    ensures ToVec3(Cross(a, b)) == S.Cross3(ToVec3(a), ToVec3(b))
    ensures Dot(a, b) == V.Vec3Dot(ToVec3(a), ToVec3(b)) == a.x * b.x + a.y * b.y + a.z * b.z
    ensures Cross(a, b) == Point3D(a.y * b.z - a.z * b.y, a.z * b.x - a.x * b.z, a.x * b.y - a.y * b.x)
    ensures Dot(Cross(a, b), a) == 0.0 && Dot(Cross(a, b), b) == 0.0
  {
    S.Cross3Properties(ToVec3(a), ToVec3(b));
    assert ToVec3(Cross(a, b)) == S.Cross3(ToVec3(a), ToVec3(b));
  }

  /** graphene_point3d_interpolate: graphene_lerp on each coordinate. */
  function Interpolate(a: Point3D, b: Point3D, factor: real): Point3D
  {
    Point3D(P.Lerp(a.x, b.x, factor), P.Lerp(a.y, b.y, factor), P.Lerp(a.z, b.z, factor))
  }

  lemma InterpolateEnds(a: Point3D, b: Point3D)
    ensures Interpolate(a, b, 0.0) == a && Interpolate(a, b, 1.0) == b
  {
    P.LerpEnds(a.x, b.x);
    P.LerpEnds(a.y, b.y);
    P.LerpEnds(a.z, b.z);
  }

  /** graphene_point3d_normalize_viewport: each coordinate is mapped from
    * the viewport (and the depth range) to [0, 1], then to 2u - 1 and
    * clamped into [-1, 1]. The divisions need a non-empty viewport and
    * distinct clipping planes. */
  function NormalizeViewport(p: Point3D, viewport: R.Rect, zNear: real, zFar: real): (r: Point3D)
    requires viewport.size.width != 0.0 && viewport.size.height != 0.0 && zFar != zNear
    ensures -1.0 <= r.x <= 1.0 && -1.0 <= r.y <= 1.0 && -1.0 <= r.z <= 1.0
  {
    var x := (p.x - viewport.origin.x) / viewport.size.width;
    var y := (p.y - viewport.origin.y) / viewport.size.height;
    var z := (p.z - zNear) / (zFar - zNear);
    Point3D(P.Clamp(x * 2.0 - 1.0, -1.0, 1.0), P.Clamp(y * 2.0 - 1.0, -1.0, 1.0), P.Clamp(z * 2.0 - 1.0, -1.0, 1.0))
  }

  /** The viewport origin and the near plane map to -1, the far corner and
    * the far plane to 1, and the centre to 0. */
  lemma NormalizeViewportCorners(viewport: R.Rect, zNear: real, zFar: real)
    requires viewport.size.width != 0.0 && viewport.size.height != 0.0 && zFar != zNear
    ensures NormalizeViewport(Point3D(viewport.origin.x, viewport.origin.y, zNear), viewport, zNear, zFar) ==
      Point3D(-1.0, -1.0, -1.0)
    ensures NormalizeViewport(Point3D(R.Right(viewport), R.Bottom(viewport), zFar), viewport, zNear, zFar) ==
      Point3D(1.0, 1.0, 1.0)
    ensures NormalizeViewport(Point3D(viewport.origin.x + viewport.size.width / 2.0,
                                      viewport.origin.y + viewport.size.height / 2.0,
                                      (zNear + zFar) / 2.0), viewport, zNear, zFar) ==
      Point3D(0.0, 0.0, 0.0)
  {
    AxisFractions(viewport.origin.x, viewport.size.width);
    AxisFractions(viewport.origin.y, viewport.size.height);
    AxisFractions(zNear, zFar - zNear);
    assert zNear + (zFar - zNear) == zFar;
    assert zNear + (zFar - zNear) / 2.0 == (zNear + zFar) / 2.0;
  }

  /** One axis of NormalizeViewportCorners: the start, the end and the
    * middle of an extent lie at fractions 0, 1 and 1/2 of it. */
  lemma AxisFractions(o: real, w: real)
    requires w != 0.0
    ensures (o - o) / w == 0.0
    ensures (o + w - o) / w == 1.0
    ensures (o + w / 2.0 - o) / w == 0.5
  {
    assert o + w - o == w;
    assert o + w / 2.0 - o == w / 2.0;
  }
}
