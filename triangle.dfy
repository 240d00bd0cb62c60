// graphene_triangle_t: three vec3 vertices a, b, c. Barycentric
// coordinates are taken with respect to the edges c - a (u) and b - a (v).

module Triangles {

  import opened Common
  import S = Simd
  import V = Vectors
  import P = Private
  import P3 = Points3D
  import B = Boxes

  datatype Triangle = Triangle(a: V.Vec3, b: V.Vec3, c: V.Vec3)

  /** Every vec3 the library builds has a zero w lane. */
  predicate W0(t: Triangle) { t.a.w == 0.0 && t.b.w == 0.0 && t.c.w == 0.0 }

  function PointOr0(p: Option<P3.Point3D>): P3.Point3D
  {
    if p.Some? then p.value else P3.Point3D(0.0, 0.0, 0.0)
  }

  function VecOr0(v: Option<V.Vec3>): V.Vec3
  {
    if v.Some? then v.value else V.Vec3Zero
  }

  // ----- initialisers and getters -----

  /** graphene_triangle_init_from_point3d: a NULL vertex is the zero
    * vector. */
  function InitFromPoint3D(a: Option<P3.Point3D>, b: Option<P3.Point3D>, c: Option<P3.Point3D>): Triangle
  {
    Triangle(P3.ToVec3(PointOr0(a)), P3.ToVec3(PointOr0(b)), P3.ToVec3(PointOr0(c)))
  }

  /** graphene_triangle_init_from_vec3: a NULL vertex is the zero vector. */
  function InitFromVec3(a: Option<V.Vec3>, b: Option<V.Vec3>, c: Option<V.Vec3>): Triangle
  {
    Triangle(VecOr0(a), VecOr0(b), VecOr0(c))
  }

  /** graphene_triangle_get_points: the vertices as points. */
  function GetPoints(t: Triangle): (P3.Point3D, P3.Point3D, P3.Point3D)
  {
    (P3.InitFromVec3(t.a), P3.InitFromVec3(t.b), P3.InitFromVec3(t.c))
  }

  /** graphene_triangle_get_vertices: the stored vectors. */
  function GetVertices(t: Triangle): (V.Vec3, V.Vec3, V.Vec3)
  {
    (t.a, t.b, t.c)
  }

  /** The getters read back what the initialisers stored, NULL vertices
    * reading back as the origin, and both initialisers agree. */
  lemma InitReadBack(a: Option<P3.Point3D>, b: Option<P3.Point3D>, c: Option<P3.Point3D>,
                     x: Option<V.Vec3>, y: Option<V.Vec3>, z: Option<V.Vec3>)
    ensures GetPoints(InitFromPoint3D(a, b, c)) == (PointOr0(a), PointOr0(b), PointOr0(c))
    ensures W0(InitFromPoint3D(a, b, c))
    ensures GetVertices(InitFromVec3(x, y, z)) == (VecOr0(x), VecOr0(y), VecOr0(z))
    ensures InitFromPoint3D(None, None, None) == InitFromVec3(None, None, None)
    ensures GetVertices(InitFromVec3(None, None, None)) == (V.Vec3Zero, V.Vec3Zero, V.Vec3Zero)
  {
  }

  // ----- midpoint and bounding box -----

  /** graphene_triangle_get_midpoint: (a + b + c) scaled by 1/3. */
  function Midpoint(t: Triangle): P3.Point3D
  {
    P3.InitFromVec3(V.Scale(S.Add(S.Add(t.a, t.b), t.c), 1.0 / 3.0))
  }

  /** graphene_triangle_get_bounding_box: the empty box expanded by a, b
    * and c in turn. */
  function BoundingBox(t: Triangle): B.Box
  {
    B.ExpandVec3(B.ExpandVec3(B.ExpandVec3(B.InitFromBox(B.Empty), t.a), t.b), t.c)
  }

  /** The bounding box is init_from_points of the three vertices: the
    * smallest box holding them, and it holds each of them. */
  lemma BoundingBoxOfVertices(t: Triangle)
    requires W0(t)
    ensures BoundingBox(t) == B.PointsBox([GetPoints(t).0, GetPoints(t).1, GetPoints(t).2])
    ensures B.ContainsPoint(BoundingBox(t), GetPoints(t).0)
    ensures B.ContainsPoint(BoundingBox(t), GetPoints(t).1)
    ensures B.ContainsPoint(BoundingBox(t), GetPoints(t).2)
  {
    var (pa, pb, pc) := GetPoints(t);
    var pts := [pa, pb, pc];
    assert pts[..2][..1] == [pa] && pts[..2] == [pa, pb];
    assert [pa][..0] == [];
    assert t.a == S.Simd4(pa.x, pa.y, pa.z, 0.0);
    assert t.b == S.Simd4(pb.x, pb.y, pb.z, 0.0);
    assert t.c == S.Simd4(pc.x, pc.y, pc.z, 0.0);
    B.ExpandVec3IsExpand(B.Empty, pa);
    B.ExpandVec3IsExpand(B.Expand(B.Empty, pa), pb);
    B.ExpandVec3IsExpand(B.Expand(B.Expand(B.Empty, pa), pb), pc);
    assert B.PointsBox([pa]) == B.Expand(B.Empty, pa);
    B.PointsBoxContains(pts);
    assert pts[0] == pa && pts[1] == pb && pts[2] == pc;
  }

  // ----- barycentric coordinates -----

  /** The (u, v) pair get_uv writes. */
  datatype UV = UV(u: real, v: real)

  /** The edges get_uv measures from a: v0 = c - a and v1 = b - a. */
  function Edge0(t: Triangle): V.Vec3 { S.Sub(t.c, t.a) }

  function Edge1(t: Triangle): V.Vec3 { S.Sub(t.b, t.a) }

  /** dot00, dot01 and dot11 of the two edges. */
  datatype Gram = Gram(d00: real, d01: real, d11: real)

  function GramOf(t: Triangle): Gram
  {
    Gram(V.Vec3Dot(Edge0(t), Edge0(t)), V.Vec3Dot(Edge0(t), Edge1(t)), V.Vec3Dot(Edge1(t), Edge1(t)))
  }

  /** denom = dot00 * dot11 - dot01 * dot01. */
  function Det(g: Gram): real { g.d00 * g.d11 - g.d01 * g.d01 }

  /** get_uv refuses triangles whose denominator is within FLT_EPSILON of
    * zero. */
  predicate Degenerate(t: Triangle) { Abs(Det(GramOf(t))) <= P.FltEpsilon }

  /** The numerators of u and v: dot11 * dot02 - dot01 * dot12 and
    * dot00 * dot12 - dot01 * dot02. */
  function NumU(g: Gram, d02: real, d12: real): real { g.d11 * d02 - g.d01 * d12 }

  function NumV(g: Gram, d02: real, d12: real): real { g.d00 * d12 - g.d01 * d02 }

  /** The last step of get_uv: given dot02 and dot12, fail when |denom| <=
    * FLT_EPSILON, otherwise multiply both numerators by inv_denom = 1 / denom. */
  function Solve(g: Gram, d02: real, d12: real): Option<UV>
  {
    if Abs(Det(g)) <= P.FltEpsilon then None
    else Some(UV(NumU(g, d02, d12) * (1.0 / Det(g)), NumV(g, d02, d12) * (1.0 / Det(g))))
  }

  /** graphene_triangle_get_uv: fails exactly on a degenerate triangle. */
  function GetUV(t: Triangle, point: V.Vec3): (r: Option<UV>)
    ensures r.None? <==> Degenerate(t)
  {
    var v2 := S.Sub(point, t.a);
    Solve(GramOf(t), V.Vec3Dot(Edge0(t), v2), V.Vec3Dot(Edge1(t), v2))
  }

  /** graphene_triangle_get_barycoords: a NULL point is the origin. */
  function GetBarycoords(t: Triangle, p: Option<P3.Point3D>): Option<V.Vec2>
  {
    var point := if p.None? then V.Vec3Init(0.0, 0.0, 0.0) else P3.ToVec3(p.value);
    match GetUV(t, point)
    case None => None
    case Some(uv) => Some(V.Vec2Init(uv.u, uv.v))
  }

  /** graphene_triangle_contains_point: u >= 0, v >= 0 and u + v < 1
    * (strict), false on a degenerate triangle. */
  predicate ContainsPoint(t: Triangle, p: P3.Point3D)
  {
    var uv := GetUV(t, P3.ToVec3(p));
    uv.Some? && uv.value.u >= 0.0 && uv.value.v >= 0.0 && uv.value.u + uv.value.v < 1.0
  }

  /** The point a + s (c - a) + r (b - a) of the triangle's plane. */
  function PlanePoint(t: Triangle, s: real, r: real): P3.Point3D
  {
    P3.InitFromVec3(S.Add(t.a, S.Add(V.Scale(Edge0(t), s), V.Scale(Edge1(t), r))))
  }

  /** The dot product is symmetric, and linear in its second argument (on
    * x, y and z). */
  lemma DotLinear(w: V.Vec3, p: V.Vec3, q: V.Vec3, d: V.Vec3, s: real, r: real)
    requires d.x == s * p.x + r * q.x && d.y == s * p.y + r * q.y && d.z == s * p.z + r * q.z
    ensures V.Vec3Dot(w, d) == s * V.Vec3Dot(w, p) + r * V.Vec3Dot(w, q)
  {
  }

  lemma DotSymmetric(p: V.Vec3, q: V.Vec3)
    ensures V.Vec3Dot(p, q) == V.Vec3Dot(q, p)
  {
  }

  /** Multiplying by the reciprocal undoes a multiplication. */
  lemma MulReciprocal(x: real, d: real)
    requires d != 0.0
    ensures (x * d) * (1.0 / d) == x
  {
    assert d * (1.0 / d) == 1.0;
    assert (x * d) * (1.0 / d) == x * (d * (1.0 / d));
  }

  /** For the right-hand side of a point with coordinates (s, r) the
    * numerators are s and r times the denominator. */
  lemma Numerators(g: Gram, s: real, r: real)
    ensures NumU(g, s * g.d00 + r * g.d01, s * g.d01 + r * g.d11) == s * Det(g)
    ensures NumV(g, s * g.d00 + r * g.d01, s * g.d01 + r * g.d11) == r * Det(g)
  {
  }

  /** Cramer's rule: the last step of get_uv inverts the Gram matrix. */
  lemma SolveInverts(g: Gram, s: real, r: real)
    requires Abs(Det(g)) > P.FltEpsilon
    ensures Solve(g, s * g.d00 + r * g.d01, s * g.d01 + r * g.d11) == Some(UV(s, r))
  {
    Numerators(g, s, r);
    MulReciprocal(s, Det(g));
    MulReciprocal(r, Det(g));
    var sol := Solve(g, s * g.d00 + r * g.d01, s * g.d01 + r * g.d11);
    assert sol.Some?;
    assert sol.value.u == s;
    assert sol.value.v == r;
  }

  /** The offset of PlanePoint(t, s, r) from A is s * (C - A) + r * (B - A)
    * on x, y and z. */
  lemma PlanePointOffset(t: Triangle, s: real, r: real)
    ensures var v, e0, e1 := S.Sub(P3.ToVec3(PlanePoint(t, s, r)), t.a), Edge0(t), Edge1(t);
      v.x == s * e0.x + r * e1.x && v.y == s * e0.y + r * e1.y && v.z == s * e0.z + r * e1.z
  {
    var e0, e1 := Edge0(t), Edge1(t);
    assert V.Scale(e0, s) == S.Simd4(e0.x * s, e0.y * s, e0.z * s, e0.w * s);
    assert V.Scale(e1, r) == S.Simd4(e1.x * r, e1.y * r, e1.z * r, e1.w * r);
  }

  /** On a non-degenerate triangle get_uv recovers the coordinates of every
    * point of the triangle's plane. */
  lemma UVRecovers(t: Triangle, s: real, r: real)
    requires !Degenerate(t)
    ensures GetUV(t, P3.ToVec3(PlanePoint(t, s, r))) == Some(UV(s, r))
  {
    var e0, e1 := Edge0(t), Edge1(t);
    var v2 := S.Sub(P3.ToVec3(PlanePoint(t, s, r)), t.a);
    PlanePointOffset(t, s, r);
    DotLinear(e0, e0, e1, v2, s, r);
    DotLinear(e1, e0, e1, v2, s, r);
    DotSymmetric(e0, e1);
    UVFromDots(t, P3.ToVec3(PlanePoint(t, s, r)), s, r);
  }

  /** get_uv returns (s, r) for a point whose dot02 and dot12 are the ones
    * s * (C - A) + r * (B - A) has. */
  lemma UVFromDots(t: Triangle, point: V.Vec3, s: real, r: real)
    requires !Degenerate(t)
    requires V.Vec3Dot(Edge0(t), S.Sub(point, t.a)) == s * GramOf(t).d00 + r * GramOf(t).d01
    requires V.Vec3Dot(Edge1(t), S.Sub(point, t.a)) == s * GramOf(t).d01 + r * GramOf(t).d11
    ensures GetUV(t, point) == Some(UV(s, r))
  {
    SolveInverts(GramOf(t), s, r);
  }

  /** On a non-degenerate triangle a point of its plane is contained
    * exactly when its coordinates are non-negative and sum to less than 1. */
  lemma ContainsPlanePoint(t: Triangle, s: real, r: real)
    requires !Degenerate(t)
    ensures ContainsPoint(t, PlanePoint(t, s, r)) <==> s >= 0.0 && r >= 0.0 && s + r < 1.0
  {
    UVRecovers(t, s, r);
  }

  /** The vertices are the plane points (0, 0), (0, 1) and (1, 0). */
  lemma VerticesArePlanePoints(t: Triangle)
    ensures PlanePoint(t, 0.0, 0.0) == GetPoints(t).0
    ensures PlanePoint(t, 0.0, 1.0) == GetPoints(t).1
    ensures PlanePoint(t, 1.0, 0.0) == GetPoints(t).2
  {
    var e0, e1 := Edge0(t), Edge1(t);
    assert V.Scale(e0, 0.0) == S.Zero && V.Scale(e1, 0.0) == S.Zero;
    V.ScaleProperties(e0, 1.0);
    V.ScaleProperties(e1, 1.0);
    assert S.Add(t.a, S.Add(S.Zero, e1)).x == t.b.x;
  }

  /** The barycoords test: on a non-degenerate triangle A, B and C have
    * coordinates (0, 0), (0, 1) and (1, 0). */
  lemma BarycoordsOfVertices(t: Triangle)
    requires !Degenerate(t)
    ensures GetBarycoords(t, Some(GetPoints(t).0)) == Some(V.Vec2Init(0.0, 0.0))
    ensures GetBarycoords(t, Some(GetPoints(t).1)) == Some(V.Vec2Init(0.0, 1.0))
    ensures GetBarycoords(t, Some(GetPoints(t).2)) == Some(V.Vec2Init(1.0, 0.0))
  {
    VerticesArePlanePoints(t);
    UVRecovers(t, 0.0, 0.0);
    UVRecovers(t, 0.0, 1.0);
    UVRecovers(t, 1.0, 0.0);
  }

  /** Because u + v < 1 is strict, a non-degenerate triangle contains its
    * vertex A but neither B nor C. */
  lemma ContainsVertices(t: Triangle)
    requires !Degenerate(t)
    ensures ContainsPoint(t, GetPoints(t).0)
    ensures !ContainsPoint(t, GetPoints(t).1)
    ensures !ContainsPoint(t, GetPoints(t).2)
  {
    VerticesArePlanePoints(t);
    ContainsPlanePoint(t, 0.0, 0.0);
    ContainsPlanePoint(t, 0.0, 1.0);
    ContainsPlanePoint(t, 1.0, 0.0);
  }

  /** The midpoint is the plane point (1/3, 1/3), so a non-degenerate
    * triangle contains it and its barycoords are (1/3, 1/3). */
  lemma MidpointIsCentroid(t: Triangle)
    ensures Midpoint(t) == PlanePoint(t, 1.0 / 3.0, 1.0 / 3.0)
    ensures !Degenerate(t) ==> ContainsPoint(t, Midpoint(t))
    ensures !Degenerate(t) ==> GetBarycoords(t, Some(Midpoint(t))) == Some(V.Vec2Init(1.0 / 3.0, 1.0 / 3.0))
  {
    if !Degenerate(t) {
      ContainsPlanePoint(t, 1.0 / 3.0, 1.0 / 3.0);
      UVRecovers(t, 1.0 / 3.0, 1.0 / 3.0);
    }
  }

  /** Any dot product with the zero vector is 0. */
  lemma DotZero(e: V.Vec3)
    ensures V.Vec3Dot(e, S.Zero) == 0.0 && V.Vec3Dot(S.Zero, e) == 0.0
  {
  }

  /** The Gram matrix of two edges one of which is zero, or of two equal
    * edges, is singular. */
  lemma SingularGramAB(t: Triangle)
    requires t.a == t.b
    ensures Det(GramOf(t)) == 0.0
  {
    assert Edge1(t) == S.Zero;
    DotZero(Edge0(t));
  }

  lemma SingularGramAC(t: Triangle)
    requires t.a == t.c
    ensures Det(GramOf(t)) == 0.0
  {
    assert Edge0(t) == S.Zero;
    DotZero(Edge1(t));
  }

  lemma SingularGramBC(t: Triangle)
    requires t.b == t.c
    ensures Det(GramOf(t)) == 0.0
  {
    assert Edge0(t) == Edge1(t);
  }

  /** On a degenerate triangle get_barycoords and contains_point fail for
    * every point. */
  lemma DegenerateFails(t: Triangle, p: P3.Point3D)
    requires Degenerate(t)
    ensures GetBarycoords(t, Some(p)) == None && GetBarycoords(t, None) == None
    ensures !ContainsPoint(t, p)
  {
    assert GetUV(t, P3.ToVec3(p)) == None;
    assert GetUV(t, V.Vec3Init(0.0, 0.0, 0.0)) == None;
  }

  /** A triangle with two coinciding vertices is degenerate. */
  lemma CoincidingVerticesDegenerate(t: Triangle)
    requires t.a == t.b || t.a == t.c || t.b == t.c
    ensures Degenerate(t)
  {
    if t.a == t.b {
      SingularGramAB(t);
    } else if t.a == t.c {
      SingularGramAC(t);
    } else {
      SingularGramBC(t);
    }
  }

  /** The denominator is the squared length of the cross product of the two
    * edges (Lagrange's identity), so it is never negative. */
  lemma DetIsCrossLength(t: Triangle)
    ensures Det(GramOf(t)) == V.Vec3Dot(S.Cross3(Edge0(t), Edge1(t)), S.Cross3(Edge0(t), Edge1(t)))
    ensures Det(GramOf(t)) >= 0.0
  {
    var p, q := Edge0(t), Edge1(t);
    var n := S.Cross3(p, q);
    assert n.x * n.x >= 0.0 && n.y * n.y >= 0.0 && n.z * n.z >= 0.0;
  }

  /** The triangle of the contains_point test: (0, 1, 0), (1, -1, 0),
    * (-1, -1, 0). */
  predicate IsTestTriangle(t: Triangle)
  {
    t == Triangle(S.Simd4(0.0, 1.0, 0.0, 0.0), S.Simd4(1.0, -1.0, 0.0, 0.0), S.Simd4(-1.0, -1.0, 0.0, 0.0))
  }

  /** It is what init_from_point3d stores for those points. */
  lemma TestTriangleInit(t: Triangle)
    requires t == InitFromPoint3D(Some(P3.Point3D(0.0, 1.0, 0.0)), Some(P3.Point3D(1.0, -1.0, 0.0)),
                                  Some(P3.Point3D(-1.0, -1.0, 0.0)))
    ensures IsTestTriangle(t)
  {
  }

  /** Its edges. */
  lemma TestTriangleLanes(t: Triangle)
    requires IsTestTriangle(t)
    ensures Edge0(t) == S.Simd4(-1.0, -2.0, 0.0, 0.0) && Edge1(t) == S.Simd4(1.0, -2.0, 0.0, 0.0)
  {
  }

  /** Its edges give dot00 = 5, dot01 = 3, dot11 = 5 and denom = 16. */
  lemma TestTriangleGram(t: Triangle)
    requires IsTestTriangle(t)
    ensures GramOf(t) == Gram(5.0, 3.0, 5.0) && !Degenerate(t)
  {
    TestTriangleLanes(t);
    var e0, e1 := Edge0(t), Edge1(t);
    assert V.Vec3Dot(e0, e0) == 5.0;
    assert V.Vec3Dot(e0, e1) == 3.0;
    assert V.Vec3Dot(e1, e1) == 5.0;
    assert Det(GramOf(t)) == 16.0;
  }

  /** A quarter of each edge, ... */
  lemma QuarterEdges(e0: V.Vec3, e1: V.Vec3)
    requires e0 == S.Simd4(-1.0, -2.0, 0.0, 0.0) && e1 == S.Simd4(1.0, -2.0, 0.0, 0.0)
    ensures V.Scale(e0, 0.25) == S.Simd4(-0.25, -0.5, 0.0, 0.0)
    ensures V.Scale(e1, 0.25) == S.Simd4(0.25, -0.5, 0.0, 0.0)
  {
  }

  /** ... added to a, give the origin. */
  lemma QuarterPoint(a: V.Vec3, p: V.Vec3, q: V.Vec3)
    requires a == S.Simd4(0.0, 1.0, 0.0, 0.0)
    requires p == S.Simd4(-0.25, -0.5, 0.0, 0.0) && q == S.Simd4(0.25, -0.5, 0.0, 0.0)
    ensures S.Add(a, S.Add(p, q)) == S.Zero
  {
  }

  /** dot02 = -1 and dot12 = 1 for the point (1, 1, 1). */
  lemma OneDots(e0: V.Vec3, e1: V.Vec3, v2: V.Vec3)
    requires e0 == S.Simd4(-1.0, -2.0, 0.0, 0.0) && e1 == S.Simd4(1.0, -2.0, 0.0, 0.0)
    requires v2 == S.Simd4(1.0, 0.0, 1.0, 0.0)
    ensures V.Vec3Dot(e0, v2) == -1.0 && V.Vec3Dot(e1, v2) == 1.0
  {
  }

  /** The origin is the plane point (1/4, 1/4) of the test triangle. */
  lemma OriginIsQuarterPoint(t: Triangle, origin: P3.Point3D)
    requires IsTestTriangle(t) && origin == P3.Point3D(0.0, 0.0, 0.0)
    ensures PlanePoint(t, 0.25, 0.25) == origin
  {
    TestTriangleLanes(t);
    QuarterEdges(Edge0(t), Edge1(t));
    QuarterPoint(t.a, V.Scale(Edge0(t), 0.25), V.Scale(Edge1(t), 0.25));
  }

  /** The contains_point test: the triangle contains the origin, ... */
  lemma ContainsOriginExample(t: Triangle, origin: P3.Point3D)
    requires IsTestTriangle(t) && origin == P3.Point3D(0.0, 0.0, 0.0)
    ensures ContainsPoint(t, origin)
  {
    OriginIsQuarterPoint(t, origin);
    TestTriangleGram(t);
    ContainsPlanePoint(t, 0.25, 0.25);
  }

  /** For (1, 1, 1) get_uv solves with dot02 = -1 and dot12 = 1, ... */
  lemma OneSystem(t: Triangle, one: P3.Point3D)
    requires IsTestTriangle(t) && one == P3.Point3D(1.0, 1.0, 1.0)
    ensures GetUV(t, P3.ToVec3(one)) == Solve(Gram(5.0, 3.0, 5.0), -1.0, 1.0)
  {
    TestTriangleLanes(t);
    var v2 := S.Sub(P3.ToVec3(one), t.a);
    assert v2 == S.Simd4(1.0, 0.0, 1.0, 0.0);
    OneDots(Edge0(t), Edge1(t), v2);
    TestTriangleGram(t);
  }

  /** ... whose solution is (u, v) = (-1/2, 1/2). */
  lemma OneSolution()
    ensures Solve(Gram(5.0, 3.0, 5.0), -1.0, 1.0) == Some(UV(-0.5, 0.5))
  {
    assert Det(Gram(5.0, 3.0, 5.0)) == 16.0;
    assert NumU(Gram(5.0, 3.0, 5.0), -1.0, 1.0) == -8.0;
    assert NumV(Gram(5.0, 3.0, 5.0), -1.0, 1.0) == 8.0;
  }

  /** ... so (1, 1, 1), off the triangle's plane, is not contained, ... */
  lemma ExcludesOneExample(t: Triangle, one: P3.Point3D)
    requires IsTestTriangle(t) && one == P3.Point3D(1.0, 1.0, 1.0)
    ensures GetUV(t, P3.ToVec3(one)) == Some(UV(-0.5, 0.5))
    ensures !ContainsPoint(t, one)
  {
    OneSystem(t, one);
    OneSolution();
  }

  /** ... and its midpoint. */
  lemma ContainsMidpointExample(t: Triangle)
    requires IsTestTriangle(t)
    ensures ContainsPoint(t, Midpoint(t))
  {
    TestTriangleGram(t);
    MidpointIsCentroid(t);
  }
}
