// graphene_vec2_t, graphene_vec3_t and graphene_vec4_t: each is one simd4f
// value. A vec2 keeps its z and w lanes at 0 and a vec3 its w lane; the
// operations that write `res->value` are functions returning the new value.

module Vectors {

  import S = Simd
  import P = Private
  import opened Common

  type Vec2 = S.Simd4f
  type Vec3 = S.Simd4f
  type Vec4 = S.Simd4f

  /** The padding lanes a well-formed vec2 or vec3 has. */
  predicate IsVec2(v: Vec2) { v.z == 0.0 && v.w == 0.0 }

  predicate IsVec3(v: Vec3) { v.w == 0.0 }

  // ----- initialisers -----

  function Vec2Init(x: real, y: real): Vec2 { S.Simd4(x, y, 0.0, 0.0) }

  function Vec3Init(x: real, y: real, z: real): Vec3 { S.Simd4(x, y, z, 0.0) }

  function Vec4Init(x: real, y: real, z: real, w: real): Vec4 { S.Simd4(x, y, z, w) }

  /** vec4_init_from_vec3: merge_w of the vec3 and w. */
  function Vec4InitFromVec3(v: Vec3, w: real): Vec4 { S.MergeW(v, w) }

  /** vec4_init_from_vec2: merge_low of the vec2 and (z, w, 0, 0). */
  function Vec4InitFromVec2(v: Vec2, z: real, w: real): Vec4 { S.MergeLow(v, S.Simd4(z, w, 0.0, 0.0)) }

  /** The initialisers store their arguments and zero the padding lanes; the
    * vec4 initialisers from smaller vectors keep the leading lanes. */
  lemma InitLanes(x: real, y: real, z: real, w: real)
    ensures IsVec2(Vec2Init(x, y)) && Vec2Init(x, y).x == x && Vec2Init(x, y).y == y
    ensures IsVec3(Vec3Init(x, y, z)) && S.ZeroW(Vec3Init(x, y, z)) == Vec3Init(x, y, z)
    ensures Vec3Init(x, y, z).x == x && Vec3Init(x, y, z).y == y && Vec3Init(x, y, z).z == z
    ensures Vec4InitFromVec3(Vec3Init(x, y, z), w) == Vec4Init(x, y, z, w)
    ensures Vec4InitFromVec2(Vec2Init(x, y), z, w) == Vec4Init(x, y, z, w)
  {
  }

  /** init_from_float reads 2, 3 or 4 floats; to_float writes them back. */
  function InitFromFloat(f: seq<real>, n: nat): S.Simd4f
    requires 2 <= n <= 4 && |f| >= n
  {
    S.InitN(f, n)
  }

  function ToFloat(v: S.Simd4f, n: nat): (r: seq<real>)
    requires 2 <= n <= 4
    ensures |r| == n
  {
    if n == 2 then [v.x, v.y] else if n == 3 then [v.x, v.y, v.z] else [v.x, v.y, v.z, v.w]
  }

  lemma FloatRoundTrip(f: seq<real>, n: nat)
    requires 2 <= n <= 4 && |f| >= n
    ensures ToFloat(InitFromFloat(f, n), n) == f[..n]
    ensures n == 2 ==> IsVec2(InitFromFloat(f, n))
    ensures n == 3 ==> IsVec3(InitFromFloat(f, n))
  {
    var v := InitFromFloat(f, n);
    if n == 2 {
      assert ToFloat(v, n) == [f[0], f[1]] == f[..2];
    } else if n == 3 {
      assert ToFloat(v, n) == [f[0], f[1], f[2]] == f[..3];
    } else {
      assert ToFloat(v, n) == [f[0], f[1], f[2], f[3]] == f[..4];
    }
  }

  lemma ToFloatRoundTrip(v: S.Simd4f)
    ensures InitFromFloat(ToFloat(v, 4), 4) == v
    ensures IsVec3(v) ==> InitFromFloat(ToFloat(v, 3), 3) == v
    ensures IsVec2(v) ==> InitFromFloat(ToFloat(v, 2), 2) == v
  {
  }

  // ----- arithmetic -----

  /** scale multiplies by splat(factor). */
  function Scale(v: S.Simd4f, factor: real): S.Simd4f { S.Mul(v, S.Splat(factor)) }

  /** The vec2 and vec3 operations keep the padding lanes at zero, so their
    * results are again vec2s and vec3s. */
  lemma Vec3Closed(a: Vec3, b: Vec3, f: real)
    requires IsVec3(a) && IsVec3(b)
    ensures IsVec3(S.Add(a, b)) && IsVec3(S.Sub(a, b)) && IsVec3(S.Mul(a, b))
    ensures IsVec3(S.Min(a, b)) && IsVec3(S.Max(a, b))
    ensures IsVec3(Scale(a, f)) && IsVec3(S.Neg(a)) && IsVec3(S.Cross3(a, b))
  {
  }

  lemma Vec2Closed(a: Vec2, b: Vec2, f: real)
    requires IsVec2(a) && IsVec2(b)
    ensures IsVec2(S.Add(a, b)) && IsVec2(S.Sub(a, b)) && IsVec2(S.Mul(a, b))
    ensures IsVec2(S.Min(a, b)) && IsVec2(S.Max(a, b))
    ensures IsVec2(Scale(a, f)) && IsVec2(S.Neg(a))
  {
  }

  /** scale then scale back by the inverse factor; negate is scale by -1. */
  lemma ScaleProperties(v: S.Simd4f, f: real)
    ensures Scale(v, 1.0) == v
    ensures Scale(v, -1.0) == S.Neg(v)
    ensures f != 0.0 ==> Scale(Scale(v, f), 1.0 / f) == v
  {
    if f != 0.0 {
      S.MulDivCancel(v.x, f);
      S.MulDivCancel(v.y, f);
      S.MulDivCancel(v.z, f);
      S.MulDivCancel(v.w, f);
      assert Scale(Scale(v, f), 1.0 / f) ==
        S.Simd4(v.x * f * (1.0 / f), v.y * f * (1.0 / f), v.z * f * (1.0 / f), v.w * f * (1.0 / f));
    }
  }

  // ----- dot products -----

  function Vec2Dot(a: Vec2, b: Vec2): real { S.Dot2(a, b).x }

  function Vec3Dot(a: Vec3, b: Vec3): real { S.Dot3(a, b).x }

  function Vec4Dot(a: Vec4, b: Vec4): real { S.Dot4(a, b).x }

  /** On well-formed vectors the three dot products agree with dot4. */
  lemma DotAgree(a: S.Simd4f, b: S.Simd4f)
    ensures IsVec3(a) ==> Vec3Dot(a, b) == Vec4Dot(a, b)
    ensures IsVec2(a) ==> Vec2Dot(a, b) == Vec4Dot(a, b)
  {
    if IsVec3(a) {
      assert S.ZeroW(a) == a;
      S.DotZeroW(a, b);
    }
    if IsVec2(a) {
      assert S.ZeroZW(a) == a;
      S.DotZeroZW(a, b);
    }
  }

  // ----- conversions -----

  /** vec3_get_xy / get_xy0 and vec4_get_xy: zero_zw. */
  function GetXY(v: S.Simd4f): Vec2 { S.ZeroZW(v) }

  /** vec3_get_xyz0 and vec4_get_xyz: zero_w. */
  function GetXYZ0(v: S.Simd4f): S.Simd4f { S.ZeroW(v) }

  /** vec3_get_xyz1: zero_w plus (0, 0, 0, 1). */
  function GetXYZ1(v: Vec3): Vec4 { S.Add(S.ZeroW(v), S.Simd4(0.0, 0.0, 0.0, 1.0)) }

  /** vec3_get_xyzw: zero_w plus (0, 0, 0, w). */
  function GetXYZW(v: Vec3, w: real): Vec4 { S.Add(S.ZeroW(v), S.Simd4(0.0, 0.0, 0.0, w)) }

  /** The conversions keep the leading lanes and set the last ones to 0, 1
    * or the given w. */
  lemma Conversions(v: S.Simd4f, w: real)
    ensures GetXY(v) == Vec2Init(v.x, v.y)
    ensures GetXYZ0(v) == Vec3Init(v.x, v.y, v.z)
    ensures GetXYZ1(v) == Vec4Init(v.x, v.y, v.z, 1.0)
    ensures GetXYZW(v, w) == Vec4Init(v.x, v.y, v.z, w)
    ensures GetXYZW(v, 1.0) == GetXYZ1(v) && GetXYZW(v, 0.0) == GetXYZ0(v)
  {
  }

  // ----- comparisons -----

  /** near: the squared distance over the type's lanes is below epsilon². */
  predicate Vec2Near(a: Vec2, b: Vec2, epsilon: real)
  {
    var d := S.Sub(a, b);
    S.Dot2(d, d).x < epsilon * epsilon
  }

  predicate Vec3Near(a: Vec3, b: Vec3, epsilon: real)
  {
    var d := S.Sub(a, b);
    S.Dot3(d, d).x < epsilon * epsilon
  }

  predicate Vec4Near(a: Vec4, b: Vec4, epsilon: real)
  {
    var d := S.Sub(a, b);
    S.Dot4(d, d).x < epsilon * epsilon
  }

  /** The comparison vecN_equal hands to graphene_pointer_equal: exact
    * equality of all four lanes, or near with GRAPHENE_FLOAT_EPSILON. */
  predicate Vec2EqualValues(a: Vec2, b: Vec2) { S.CmpEq(a, b) || Vec2Near(a, b, P.FloatEpsilon) }

  predicate Vec3EqualValues(a: Vec3, b: Vec3) { S.CmpEq(a, b) || Vec3Near(a, b, P.FloatEpsilon) }

  predicate Vec4EqualValues(a: Vec4, b: Vec4) { S.CmpEq(a, b) || Vec4Near(a, b, P.FloatEpsilon) }

  function Vec2Equal(p: PtrPair<Vec2>): bool { PointerEqual(p, Vec2EqualValues) }

  function Vec3Equal(p: PtrPair<Vec3>): bool { PointerEqual(p, Vec3EqualValues) }

  function Vec4Equal(p: PtrPair<Vec4>): bool { PointerEqual(p, Vec4EqualValues) }

  lemma SquareBelow(u: real, e: real)
    requires u * u < e * e
    ensures Abs(u) < Abs(e)
  {
    var ua, ea := Abs(u), Abs(e);
    assert ua * ua == u * u by { if u < 0.0 { assert ua * ua == (-u) * (-u); } }
    assert ea * ea == e * e by { if e < 0.0 { assert ea * ea == (-e) * (-e); } }
    if ua >= ea {
      SquareMonotone(ea, ua);
    }
  }

  lemma SquareMonotone(x: real, y: real)
    requires 0.0 <= x <= y
    ensures x * x <= y * y
  {
    P.MulLeMonotone(x, y, x);
    P.MulLeMonotone(x, y, y);
    assert x * x <= y * x;
    assert x * y <= y * y;
    assert y * x == x * y;
  }

  lemma SquareNonNegative(u: real)
    ensures u * u >= 0.0
    ensures u != 0.0 ==> u * u > 0.0
  {
    if u < 0.0 {
      assert u * u == (-u) * (-u);
    }
  }

  lemma SquareNeg(u: real, v: real)
    ensures (u - v) * (u - v) == (v - u) * (v - u)
  {
    assert v - u == -(u - v);
  }

  /** Each of three squares is at most their sum. */
  lemma SumOfSquaresBelow(p: real, q: real, r: real, e: real)
    requires p * p + q * q + r * r < e * e
    ensures Abs(p) < Abs(e) && Abs(q) < Abs(e) && Abs(r) < Abs(e)
  {
    SquareNonNegative(p);
    SquareNonNegative(q);
    SquareNonNegative(r);
    SquareBelow(p, e);
    SquareBelow(q, e);
    SquareBelow(r, e);
  }

  lemma Vec3NearValue(a: Vec3, b: Vec3, epsilon: real)
    ensures Vec3Near(a, b, epsilon) <==>
      (a.x - b.x) * (a.x - b.x) + (a.y - b.y) * (a.y - b.y) + (a.z - b.z) * (a.z - b.z) < epsilon * epsilon
  {
  }

  /** Two vec3s are near only if every lane differs by less than epsilon. */
  lemma Vec3NearLanes(a: Vec3, b: Vec3, epsilon: real)
    requires Vec3Near(a, b, epsilon)
    ensures Abs(a.x - b.x) < Abs(epsilon) && Abs(a.y - b.y) < Abs(epsilon)
    ensures Abs(a.z - b.z) < Abs(epsilon)
  {
    Vec3NearValue(a, b, epsilon);
    SumOfSquaresBelow(a.x - b.x, a.y - b.y, a.z - b.z, epsilon);
  }

  /** A vector is near itself exactly when epsilon is not 0. */
  lemma Vec3NearSelf(a: Vec3, epsilon: real)
    ensures Vec3Near(a, a, epsilon) <==> epsilon != 0.0
  {
    Vec3NearValue(a, a, epsilon);
    assert (a.x - a.x) * (a.x - a.x) + (a.y - a.y) * (a.y - a.y) + (a.z - a.z) * (a.z - a.z) == 0.0;
    SquareNonNegative(epsilon);
  }

  lemma Vec3NearSymmetric(a: Vec3, b: Vec3, epsilon: real)
    ensures Vec3Near(a, b, epsilon) <==> Vec3Near(b, a, epsilon)
  {
    Vec3NearValue(a, b, epsilon);
    Vec3NearValue(b, a, epsilon);
    SquareNeg(a.x, b.x);
    SquareNeg(a.y, b.y);
    SquareNeg(a.z, b.z);
  }

  lemma Vec4NearValue(a: Vec4, b: Vec4, epsilon: real)
    ensures Vec4Near(a, b, epsilon) <==>
      (a.x - b.x) * (a.x - b.x) + (a.y - b.y) * (a.y - b.y) +
      ((a.z - b.z) * (a.z - b.z) + (a.w - b.w) * (a.w - b.w)) < epsilon * epsilon
  {
    S.Dot4Value(S.Sub(a, b), S.Sub(a, b));
  }

  /** The vec4 version of the nearness facts: self-nearness exactly for a
    * non-zero epsilon, and symmetry. */
  lemma Vec4NearSelf(a: Vec4, epsilon: real)
    ensures Vec4Near(a, a, epsilon) <==> epsilon != 0.0
  {
    Vec4NearValue(a, a, epsilon);
    assert (a.x - a.x) * (a.x - a.x) + (a.y - a.y) * (a.y - a.y) +
      ((a.z - a.z) * (a.z - a.z) + (a.w - a.w) * (a.w - a.w)) == 0.0;
    SquareNonNegative(epsilon);
  }

  lemma Vec4NearSymmetric(a: Vec4, b: Vec4, epsilon: real)
    ensures Vec4Near(a, b, epsilon) <==> Vec4Near(b, a, epsilon)
  {
    Vec4NearValue(a, b, epsilon);
    Vec4NearValue(b, a, epsilon);
    SquareNeg(a.x, b.x);
    SquareNeg(a.y, b.y);
    SquareNeg(a.z, b.z);
    SquareNeg(a.w, b.w);
  }

  /** equal accepts identical pointers and equal values, rejects a NULL
    * against a vector, and is symmetric. */
  lemma Vec3EqualProperties(a: Vec3, b: Vec3)
    ensures Vec3Equal(Same(a)) && Vec3Equal(Distinct(a, a))
    ensures !Vec3Equal(OneNull)
    ensures Vec3Equal(Distinct(a, b)) <==> Vec3Equal(Distinct(b, a))
    ensures S.CmpEq(a, b) ==> Vec3Equal(Distinct(a, b))
  {
    Vec3NearSymmetric(a, b, P.FloatEpsilon);
    assert S.CmpEq(a, a);
    assert S.CmpEq(a, b) <==> S.CmpEq(b, a);
  }

  /** The tolerance accepts values the exact comparison rejects. */
  lemma Vec3EqualTolerance()
    ensures !S.CmpEq(Vec3Init(0.0, 0.0, 0.0), Vec3Init(P.FloatEpsilon / 2.0, 0.0, 0.0))
    ensures Vec3Equal(Distinct(Vec3Init(0.0, 0.0, 0.0), Vec3Init(P.FloatEpsilon / 2.0, 0.0, 0.0)))
  {
    var h := P.FloatEpsilon / 2.0;
    Vec3NearValue(Vec3Init(0.0, 0.0, 0.0), Vec3Init(h, 0.0, 0.0), P.FloatEpsilon);
    assert (0.0 - h) * (0.0 - h) == h * h;
    assert h * h < P.FloatEpsilon * P.FloatEpsilon by {
      P.MulLeMonotone(h, P.FloatEpsilon, h);
      assert P.FloatEpsilon * h < P.FloatEpsilon * P.FloatEpsilon;
    }
  }

  // ----- the constant vectors -----

  const Vec2Zero: Vec2 := S.Zero
  const Vec2One: Vec2 := S.Simd4(1.0, 1.0, 0.0, 0.0)
  const Vec2XAxis: Vec2 := S.Simd4(1.0, 0.0, 0.0, 0.0)
  const Vec2YAxis: Vec2 := S.Simd4(0.0, 1.0, 0.0, 0.0)

  const Vec3Zero: Vec3 := S.Zero
  const Vec3One: Vec3 := S.Simd4(1.0, 1.0, 1.0, 0.0)
  const Vec3XAxis: Vec3 := S.Simd4(1.0, 0.0, 0.0, 0.0)
  const Vec3YAxis: Vec3 := S.Simd4(0.0, 1.0, 0.0, 0.0)
  const Vec3ZAxis: Vec3 := S.Simd4(0.0, 0.0, 1.0, 0.0)

  const Vec4Zero: Vec4 := S.Zero
  const Vec4One: Vec4 := S.Splat(1.0)
  const Vec4XAxis: Vec4 := S.Simd4(1.0, 0.0, 0.0, 0.0)
  const Vec4YAxis: Vec4 := S.Simd4(0.0, 1.0, 0.0, 0.0)
  const Vec4ZAxis: Vec4 := S.Simd4(0.0, 0.0, 1.0, 0.0)
  const Vec4WAxis: Vec4 := S.Simd4(0.0, 0.0, 0.0, 1.0)

  /** The constant vectors are well formed and the axes add up to one. */
  lemma ConstantVectors()
    ensures IsVec2(Vec2Zero) && IsVec2(Vec2One) && IsVec2(Vec2XAxis) && IsVec2(Vec2YAxis)
    ensures IsVec3(Vec3Zero) && IsVec3(Vec3One) && IsVec3(Vec3XAxis) && IsVec3(Vec3YAxis) && IsVec3(Vec3ZAxis)
    ensures S.Add(Vec2XAxis, Vec2YAxis) == Vec2One
    ensures S.Add(S.Add(Vec3XAxis, Vec3YAxis), Vec3ZAxis) == Vec3One
    ensures S.Add(S.Add(Vec4XAxis, Vec4YAxis), S.Add(Vec4ZAxis, Vec4WAxis)) == Vec4One
  {
    AxesSum();
  }

  /** The axis sums of ConstantVectors; vec4's one is a splat, so its lanes
    * are spelled out first. */
  lemma AxesSum()
    ensures S.Add(Vec2XAxis, Vec2YAxis) == Vec2One
    ensures S.Add(S.Add(Vec3XAxis, Vec3YAxis), Vec3ZAxis) == Vec3One
    ensures S.Add(S.Add(Vec4XAxis, Vec4YAxis), S.Add(Vec4ZAxis, Vec4WAxis)) == Vec4One
  {
    assert Vec4One == S.Simd4(1.0, 1.0, 1.0, 1.0);
  }

  /** The vec3 axes are orthonormal and follow the right-hand rule. */
  lemma AxesRightHanded()
    ensures Vec3Dot(Vec3XAxis, Vec3XAxis) == 1.0 && Vec3Dot(Vec3XAxis, Vec3YAxis) == 0.0
    ensures Vec3Dot(Vec3YAxis, Vec3ZAxis) == 0.0 && Vec3Dot(Vec3ZAxis, Vec3ZAxis) == 1.0
    ensures S.Cross3(Vec3XAxis, Vec3YAxis) == Vec3ZAxis
    ensures S.Cross3(Vec3YAxis, Vec3ZAxis) == Vec3XAxis
    ensures S.Cross3(Vec3ZAxis, Vec3XAxis) == Vec3YAxis
  {
  }
}
