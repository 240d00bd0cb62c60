// graphene_ray_t: an origin and a direction, both vec3s. The initialisers
// store the direction normalised; normalisation needs a square root, so it is
// a parameter of the model (any function from vectors to vectors).

module Rays {

  import opened Common
  import opened ExtReal
  import S = Simd
  import V = Vectors
  import P = Private
  import P3 = Points3D
  import Pl = Planes

  datatype Ray = Ray(origin: V.Vec3, direction: V.Vec3)

  // ----- initialisers and getters -----

  /** graphene_ray_init: a NULL origin or direction stores the zero vector;
    * a given direction is stored normalised. */
  function Init(origin: Option<P3.Point3D>, direction: Option<V.Vec3>, normalize: V.Vec3 -> V.Vec3): Ray
  {
    Ray(if origin.Some? then P3.ToVec3(origin.value) else V.Vec3Zero,
        if direction.Some? then normalize(direction.value) else V.Vec3Zero)
  }

  /** graphene_ray_init_from_vec3: as init, with the origin given as a
    * vector. */
  function InitFromVec3(origin: Option<V.Vec3>, direction: Option<V.Vec3>, normalize: V.Vec3 -> V.Vec3): Ray
  {
    Ray(if origin.Some? then origin.value else V.Vec3Zero,
        if direction.Some? then normalize(direction.value) else V.Vec3Zero)
  }

  /** graphene_ray_init_from_ray goes through init_from_vec3, so it
    * normalises the direction again. */
  function InitFromRay(src: Ray, normalize: V.Vec3 -> V.Vec3): Ray
  {
    InitFromVec3(Some(src.origin), Some(src.direction), normalize)
  }

  function GetOrigin(r: Ray): P3.Point3D { P3.InitFromVec3(r.origin) }

  function GetDirection(r: Ray): V.Vec3 { r.direction }

  /** graphene_ray_get_position_at: origin + t * direction. */
  function GetPositionAt(r: Ray, t: real): P3.Point3D
  {
    P3.InitFromVec3(S.Add(V.Scale(r.direction, t), r.origin))
  }

  /** graphene_ray_get_closest_point_to_point: the projection of p onto the
    * ray, or the origin when p is behind it. */
  function GetClosestPointToPoint(r: Ray, p: P3.Point3D): P3.Point3D
  {
    var distance := V.Vec3Dot(S.Sub(P3.ToVec3(p), r.origin), r.direction);
    if distance < 0.0 then P3.InitFromVec3(r.origin)
    else P3.InitFromVec3(S.Add(V.Scale(r.direction, distance), r.origin))
  }

  /** graphene_ray_get_distance_to_plane: the parameter t at which the ray
    * meets the plane. A ray (nearly) parallel to the plane gives 0 when its
    * origin is (nearly) on the plane and INFINITY otherwise; a plane behind
    * the origin gives INFINITY. */
  function GetDistanceToPlane(r: Ray, p: Pl.Plane): EReal
  {
    var denom := V.Vec3Dot(p.normal, r.direction);
    if Abs(denom) < P.FloatEpsilon then
      if Abs(Pl.Distance(p, P3.InitFromVec3(r.origin))) < P.FloatEpsilon then Fin(0.0) else PosInf
    else
      var t := -1.0 * (V.Vec3Dot(r.origin, p.normal) + p.constant) / denom;
      if t >= 0.0 then Fin(t) else PosInf
  }

  /** ray_equal: origins and directions are vec3-equal. */
  predicate RayEqual(a: Ray, b: Ray)
  {
    V.Vec3EqualValues(a.origin, b.origin) && V.Vec3EqualValues(a.direction, b.direction)
  }

  /** graphene_ray_equal. */
  function Equal(p: PtrPair<Ray>): bool
  {
    PointerEqual(p, RayEqual)
  }

  // ----- properties -----

  /** The init test: NULL arguments give the zero origin and direction;
    * given ones read back, the direction through the normaliser. */
  lemma InitReadBack(origin: P3.Point3D, direction: V.Vec3, normalize: V.Vec3 -> V.Vec3)
    ensures GetOrigin(Init(None, None, normalize)) == P3.Point3D(0.0, 0.0, 0.0)
    ensures GetDirection(Init(None, None, normalize)) == V.Vec3Zero
    ensures GetOrigin(Init(Some(origin), None, normalize)) == origin
    ensures GetDirection(Init(None, Some(direction), normalize)) == normalize(direction)
    ensures Init(Some(origin), Some(direction), normalize) ==
            InitFromVec3(Some(P3.ToVec3(origin)), Some(direction), normalize)
  {
  }

  /** init_from_ray is a copy exactly when the normaliser leaves the
    * source direction unchanged (a direction already of length 1). */
  lemma InitFromRayCopies(src: Ray, normalize: V.Vec3 -> V.Vec3)
    ensures InitFromRay(src, normalize) == src <==> normalize(src.direction) == src.direction
  {
  }

  /** Position 0 is the origin, and moving by s then reading at t is
    * reading at s + t: positions along the ray are affine in t. */
  lemma PositionAtProperties(r: Ray, s: real, t: real)
    ensures GetPositionAt(r, 0.0) == GetOrigin(r)
    ensures GetPositionAt(Ray(P3.ToVec3(GetPositionAt(r, s)), r.direction), t) == GetPositionAt(r, s + t)
  {
    assert (s + t) * r.direction.x == t * r.direction.x + s * r.direction.x;
    assert (s + t) * r.direction.y == t * r.direction.y + s * r.direction.y;
    assert (s + t) * r.direction.z == t * r.direction.z + s * r.direction.z;
  }

  /** The dot product with the direction, read off the vector from the
    * origin to p. */
  function Along(r: Ray, p: P3.Point3D): real
  {
    V.Vec3Dot(S.Sub(P3.ToVec3(p), r.origin), r.direction)
  }

  /** The closest point is the origin for a point behind the ray and the
    * position at the projection length otherwise; for a direction of length
    * 1 the offset from the closest point to p is then perpendicular to the
    * ray. */
  lemma ClosestPointProjects(r: Ray, p: P3.Point3D)
    ensures Along(r, p) < 0.0 ==> GetClosestPointToPoint(r, p) == GetOrigin(r)
    ensures Along(r, p) >= 0.0 ==> GetClosestPointToPoint(r, p) == GetPositionAt(r, Along(r, p))
    ensures Along(r, p) >= 0.0 && V.Vec3Dot(r.direction, r.direction) == 1.0 ==>
      V.Vec3Dot(S.Sub(P3.ToVec3(p), P3.ToVec3(GetClosestPointToPoint(r, p))), r.direction) == 0.0
  {
    var d, o, w, a := r.direction, r.origin, P3.ToVec3(p), Along(r, p);
    if a >= 0.0 && V.Vec3Dot(d, d) == 1.0 {
      var c := P3.ToVec3(GetClosestPointToPoint(r, p));
      assert c == S.Simd4(a * d.x + o.x, a * d.y + o.y, a * d.z + o.z, 0.0);
      assert a == (w.x - o.x) * d.x + (w.y - o.y) * d.y + (w.z - o.z) * d.z;
      assert V.Vec3Dot(S.Sub(w, c), d) ==
        (w.x - (a * d.x + o.x)) * d.x + (w.y - (a * d.y + o.y)) * d.y + (w.z - (a * d.z + o.z)) * d.z;
      ProjectionResidual(w.x - o.x, w.y - o.y, w.z - o.z, d.x, d.y, d.z, a);
      assert w.x - (a * d.x + o.x) == (w.x - o.x) - a * d.x;
      assert w.y - (a * d.y + o.y) == (w.y - o.y) - a * d.y;
      assert w.z - (a * d.z + o.z) == (w.z - o.z) - a * d.z;
    }
  }

  /** Real arithmetic behind ClosestPointProjects: with |d| = 1 and a the
    * projection of v on d, v - a d is orthogonal to d. */
  lemma ProjectionResidual(vx: real, vy: real, vz: real, dx: real, dy: real, dz: real, a: real)
    requires dx * dx + dy * dy + dz * dz == 1.0
    requires a == vx * dx + vy * dy + vz * dz
    ensures (vx - a * dx) * dx + (vy - a * dy) * dy + (vz - a * dz) * dz == 0.0
  {
    calc {
      (vx - a * dx) * dx + (vy - a * dy) * dy + (vz - a * dz) * dz;
      (vx * dx + vy * dy + vz * dz) - a * (dx * dx + dy * dy + dz * dz);
      a - a * 1.0;
    }
  }

  /** A point on the ray, ahead of the origin, is its own closest point when
    * the direction has length 1. */
  lemma ClosestPointOnRay(r: Ray, t: real)
    requires t >= 0.0 && V.Vec3Dot(r.direction, r.direction) == 1.0
    ensures Along(r, GetPositionAt(r, t)) == t
    ensures GetClosestPointToPoint(r, GetPositionAt(r, t)) == GetPositionAt(r, t)
  {
    var d := r.direction;
    calc {
      Along(r, GetPositionAt(r, t));
      (t * d.x) * d.x + (t * d.y) * d.y + (t * d.z) * d.z;
      t * V.Vec3Dot(d, d);
    }
  }

  /** The distance to a plane is never negative infinity nor a negative
    * number, and a finite result t from a ray that is not parallel to the
    * plane is where the ray meets it: the position at t lies on the plane. */
  lemma DistanceToPlaneMeets(r: Ray, p: Pl.Plane)
    ensures !GetDistanceToPlane(r, p).NegInf?
    ensures GetDistanceToPlane(r, p).Fin? ==> GetDistanceToPlane(r, p).r >= 0.0
    ensures GetDistanceToPlane(r, p).Fin? && Abs(V.Vec3Dot(p.normal, r.direction)) >= P.FloatEpsilon ==>
      Pl.Distance(p, GetPositionAt(r, GetDistanceToPlane(r, p).r)) == 0.0
  {
    var n, d, o := p.normal, r.direction, r.origin;
    var denom := V.Vec3Dot(n, d);
    if Abs(denom) >= P.FloatEpsilon && GetDistanceToPlane(r, p).Fin? {
      var t := GetDistanceToPlane(r, p).r;
      var k := V.Vec3Dot(o, n) + p.constant;
      assert t == -1.0 * k / denom;
      assert t * denom == -k;
      SolvedParameter(n.x, n.y, n.z, d.x, d.y, d.z, o.x, o.y, o.z, p.constant, t);
    }
  }

  /** Real arithmetic behind DistanceToPlaneMeets: when t * (n . d) equals
    * -(o . n + c), the point o + t d satisfies the plane equation. */
  lemma SolvedParameter(nx: real, ny: real, nz: real, dx: real, dy: real, dz: real,
                        ox: real, oy: real, oz: real, c: real, t: real)
    requires t * (nx * dx + ny * dy + nz * dz) == -(ox * nx + oy * ny + oz * nz + c)
    ensures nx * (t * dx + ox) + ny * (t * dy + oy) + nz * (t * dz + oz) + c == 0.0
  {
    var ax, ay, az := nx * dx, ny * dy, nz * dz;
    assert nx * (t * dx + ox) == t * ax + ox * nx;
    assert ny * (t * dy + oy) == t * ay + oy * ny;
    assert nz * (t * dz + oz) == t * az + oz * nz;
    assert t * ax + t * ay + t * az == t * (ax + ay + az);
  }

  /** A ray whose origin lies on the plane is at distance 0 from it,
    * parallel or not. */
  lemma OriginOnPlane(r: Ray, p: Pl.Plane)
    requires Pl.Distance(p, P3.InitFromVec3(r.origin)) == 0.0
    ensures GetDistanceToPlane(r, p) == Fin(0.0)
  {
    var o, n := r.origin, p.normal;
    assert V.Vec3Dot(o, n) + p.constant == Pl.Distance(p, P3.InitFromVec3(o));
  }

  /** A ray that is not parallel to the plane and whose origin is on the
    * plane's negative side meets it ahead exactly when the direction points
    * towards the positive side. */
  lemma BehindPlane(r: Ray, p: Pl.Plane)
    requires Pl.Distance(p, P3.InitFromVec3(r.origin)) < 0.0
    requires Abs(V.Vec3Dot(p.normal, r.direction)) >= P.FloatEpsilon
    ensures GetDistanceToPlane(r, p).Fin? <==> V.Vec3Dot(p.normal, r.direction) > 0.0
  {
    var o, n := r.origin, p.normal;
    var k := V.Vec3Dot(o, n) + p.constant;
    assert k == Pl.Distance(p, P3.InitFromVec3(o));
    var denom := V.Vec3Dot(n, r.direction);
    if denom > 0.0 {
      assert -1.0 * k / denom > 0.0;
    } else {
      assert -1.0 * k / denom < 0.0;
    }
  }

  /** equal: identical pointers and a ray against itself are equal, a NULL
    * against a ray is not, and the comparison is symmetric. */
  lemma EqualProperties(a: Ray, b: Ray)
    ensures Equal(Same(a)) && Equal(BothNull) && !Equal(OneNull)
    ensures Equal(Distinct(a, a))
    ensures Equal(Distinct(a, b)) <==> Equal(Distinct(b, a))
  {
    V.Vec3EqualProperties(a.origin, b.origin);
    V.Vec3EqualProperties(a.direction, b.direction);
  }

  /** The ray of the position and closest-point tests: from (1, 1, 1) along
    * the z axis, which the normaliser keeps. */
  predicate IsTestRay(r: Ray)
  {
    r.origin == S.Simd4(1.0, 1.0, 1.0, 0.0) && r.direction == S.Simd4(0.0, 0.0, 1.0, 0.0)
  }

  lemma TestRayInit(normalize: V.Vec3 -> V.Vec3, one: P3.Point3D)
    requires normalize(V.Vec3ZAxis) == V.Vec3ZAxis
    requires one == P3.Point3D(1.0, 1.0, 1.0)
    ensures IsTestRay(Init(Some(one), Some(V.Vec3ZAxis), normalize))
  {
  }

  /** On the test ray the position at t is (1, 1, 1 + t): t = 0, -1 and 1
    * give (1, 1, 1), (1, 1, 0) and (1, 1, 2). */
  lemma PositionExamples(r: Ray, t: real)
    requires IsTestRay(r)
    ensures GetPositionAt(r, t) == P3.Point3D(1.0, 1.0, 1.0 + t)
  {
  }

  /** On the test ray the closest point to p is (1, 1, p.z), or the origin
    * (1, 1, 1) when p.z < 1: (0, 0, 0) and (1, 1, 1) give the origin,
    * (0, 0, 50) gives (1, 1, 50). */
  lemma ClosestExamples(r: Ray, p: P3.Point3D)
    requires IsTestRay(r)
    ensures GetClosestPointToPoint(r, p) == P3.Point3D(1.0, 1.0, if p.z < 1.0 then 1.0 else p.z)
  {
    assert Along(r, p) == p.z - 1.0;
  }
}
