// graphene_simd4f_t: four float lanes x, y, z, w. Both the GCC
// vector-extension macros and the scalar fallback are modelled; they agree
// lane by lane except for `cmp_neq`, which the scalar fallback gets wrong.

module Simd {

  import P = Private
  import C = Common

  datatype Simd4f = Simd4(x: real, y: real, z: real, w: real)

  /** graphene_simd4f_get: lane i, in the order x, y, z, w. */
  function Get(v: Simd4f, i: nat): real
    requires i < 4
  {
    if i == 0 then v.x else if i == 1 then v.y else if i == 2 then v.z else v.w
  }

  /** The lanes in memory order. */
  function Lanes(v: Simd4f): (r: seq<real>)
    ensures |r| == 4
    ensures forall i :: 0 <= i < 4 ==> r[i] == Get(v, i)
  {
    [v.x, v.y, v.z, v.w]
  }

  /** A vector is determined by its lanes. */
  lemma LanesExt(a: Simd4f, b: Simd4f)
    requires forall i :: 0 <= i < 4 ==> Get(a, i) == Get(b, i)
    ensures a == b
  {
    assert Get(a, 0) == Get(b, 0) && Get(a, 1) == Get(b, 1);
    assert Get(a, 2) == Get(b, 2) && Get(a, 3) == Get(b, 3);
  }

  /** graphene_simd4f_init followed by the getters gives back the lanes. */
  lemma GetInit(x: real, y: real, z: real, w: real)
    ensures Get(Simd4(x, y, z, w), 0) == x && Get(Simd4(x, y, z, w), 1) == y
    ensures Get(Simd4(x, y, z, w), 2) == z && Get(Simd4(x, y, z, w), 3) == w
  {
  }

  const Zero: Simd4f := Simd4(0.0, 0.0, 0.0, 0.0)

  // ----- loading from and storing to float arrays -----

  /** init_4f / init_3f / init_2f: the first n floats of the array, the
    * remaining lanes zero. */
  function InitN(f: seq<real>, n: nat): (r: Simd4f)
    requires 2 <= n <= 4 && |f| >= n
    ensures Lanes(r)[..n] == f[..n]
    ensures forall i :: n <= i < 4 ==> Get(r, i) == 0.0
  {
    if n == 4 then Simd4(f[0], f[1], f[2], f[3])
    else if n == 3 then Simd4(f[0], f[1], f[2], 0.0)
    else Simd4(f[0], f[1], 0.0, 0.0)
  }

  /** dup_4f / dup_3f / dup_2f: memcpy of the first n lanes into the
    * caller's array; the rest of the array is untouched. */
  method Dup(v: Simd4f, n: nat, dst: array<real>)
    requires 2 <= n <= 4 && dst.Length >= n
    modifies dst
    ensures dst[..n] == Lanes(v)[..n]
    ensures dst[n..] == old(dst[n..])
  {
    dst[0] := v.x;
    dst[1] := v.y;
    if n >= 3 {
      dst[2] := v.z;
    }
    if n == 4 {
      dst[3] := v.w;
    }
  }

  /** Storing n lanes and loading them again gives the vector back with the
    * dropped lanes zeroed; loading n floats and storing them gives the
    * floats back. */
  lemma InitNDupRoundTrip(v: Simd4f, f: seq<real>, n: nat)
    requires 2 <= n <= 4 && |f| >= n
    ensures Lanes(InitN(Lanes(v)[..n], n))[..n] == Lanes(v)[..n]
    ensures n == 4 ==> InitN(Lanes(v), 4) == v
    ensures n == 3 ==> InitN(Lanes(v)[..3], 3) == ZeroW(v)
    ensures Lanes(InitN(f, n))[..n] == f[..n]
  {
  }

  // ----- broadcasts -----

  function Splat(s: real): Simd4f
  {
    Simd4(s, s, s, s)
  }

  /** splat_x .. splat_w: one lane broadcast to all four. */
  function SplatLane(v: Simd4f, i: nat): Simd4f
    requires i < 4
  {
    Splat(Get(v, i))
  }

  // ----- lanewise arithmetic -----

  function Add(a: Simd4f, b: Simd4f): Simd4f
  {
    Simd4(a.x + b.x, a.y + b.y, a.z + b.z, a.w + b.w)
  }

  function Sub(a: Simd4f, b: Simd4f): Simd4f
  {
    Simd4(a.x - b.x, a.y - b.y, a.z - b.z, a.w - b.w)
  }

  function Mul(a: Simd4f, b: Simd4f): Simd4f
  {
    Simd4(a.x * b.x, a.y * b.y, a.z * b.z, a.w * b.w)
  }

  predicate NoZeroLane(b: Simd4f)
  {
    b.x != 0.0 && b.y != 0.0 && b.z != 0.0 && b.w != 0.0
  }

  function Div(a: Simd4f, b: Simd4f): Simd4f
    requires NoZeroLane(b)
  {
    Simd4(a.x / b.x, a.y / b.y, a.z / b.z, a.w / b.w)
  }

  /** neg is a multiplication by splat(-1). */
  function Neg(v: Simd4f): (r: Simd4f)
    ensures Add(v, r) == Zero
  {
    Mul(v, Splat(-1.0))
  }

  /** madd(a, b, c) = a * b + c, lanewise. */
  function Madd(a: Simd4f, b: Simd4f, c: Simd4f): Simd4f
  {
    Add(Mul(a, b), c)
  }

  lemma AddSubInverse(a: Simd4f, b: Simd4f)
    ensures Sub(Add(a, b), b) == a
    ensures Add(Sub(a, b), b) == a
    ensures Add(a, b) == Add(b, a)
  {
  }

  lemma MulDivInverse(a: Simd4f, b: Simd4f)
    requires NoZeroLane(b)
    ensures Div(Mul(a, b), b) == a
  {
    var m := Mul(a, b);
    MulDivCancel(a.x, b.x);
    MulDivCancel(a.y, b.y);
    MulDivCancel(a.z, b.z);
    MulDivCancel(a.w, b.w);
    assert Div(m, b) == Simd4(m.x / b.x, m.y / b.y, m.z / b.z, m.w / b.w);
  }

  lemma MulDivCancel(u: real, c: real)
    requires c != 0.0
    ensures (u * c) / c == u
  {
  }

  lemma MaddUnits(a: Simd4f, b: Simd4f, c: Simd4f)
    ensures Madd(a, Splat(1.0), c) == Add(a, c)
    ensures Madd(a, b, Zero) == Mul(a, b)
    ensures Neg(Neg(a)) == a
  {
  }

  // ----- cross and dot products -----

  /** cross3: the 3D cross product of the xyz lanes, with w = 0. */
  function Cross3(a: Simd4f, b: Simd4f): (r: Simd4f)
    ensures r.w == 0.0
  {
    Simd4(a.y * b.z - a.z * b.y, a.z * b.x - a.x * b.z, a.x * b.y - a.y * b.x, 0.0)
  }

  /** dot3 of the vector-extension branch and of the common header:
    * x·x' + y·y' + z·z' in every lane. */
  function Dot3(a: Simd4f, b: Simd4f): (r: Simd4f)
    ensures r == Splat(r.x)
  {
    Splat(a.x * b.x + a.y * b.y + a.z * b.z)
  }

  /** The cross product is orthogonal to both operands and anti-commutes. */
  lemma Cross3Properties(a: Simd4f, b: Simd4f)
    ensures Dot3(Cross3(a, b), a).x == 0.0
    ensures Dot3(Cross3(a, b), b).x == 0.0
    ensures Cross3(b, a) == Neg(Cross3(a, b))
    ensures Cross3(a, a) == Zero
  {
    var c := Cross3(a, b);
    calc {
      Dot3(c, a).x;
      (a.y * b.z - a.z * b.y) * a.x + (a.z * b.x - a.x * b.z) * a.y + (a.x * b.y - a.y * b.x) * a.z;
      a.x * a.y * b.z - a.x * a.z * b.y + a.y * a.z * b.x - a.x * a.y * b.z + a.x * a.z * b.y - a.y * a.z * b.x;
      0.0;
    }
    calc {
      Dot3(c, b).x;
      (a.y * b.z - a.z * b.y) * b.x + (a.z * b.x - a.x * b.z) * b.y + (a.x * b.y - a.y * b.x) * b.z;
      a.y * b.x * b.z - a.z * b.x * b.y + a.z * b.x * b.y - a.x * b.y * b.z + a.x * b.y * b.z - a.y * b.x * b.z;
      0.0;
    }
  }

  /** sum of the generic header: (x + y) + (z + w) in every lane. */
  function Sum(v: Simd4f): (r: Simd4f)
    ensures r == Splat(r.x)
  {
    Add(Add(SplatLane(v, 0), SplatLane(v, 1)), Add(SplatLane(v, 2), SplatLane(v, 3)))
  }

  /** sum of the common header: ((x + y) + z) + w in every lane. */
  function SumSequential(v: Simd4f): (r: Simd4f)
    ensures r == Splat(r.x)
  {
    Add(Add(Add(SplatLane(v, 0), SplatLane(v, 1)), SplatLane(v, 2)), SplatLane(v, 3))
  }

  /** dot4 = sum(mul(a, b)). */
  function Dot4(a: Simd4f, b: Simd4f): (r: Simd4f)
    ensures r == Splat(r.x)
  {
    Sum(Mul(a, b))
  }

  /** dot2 = splat_x(m) + splat_y(m) with m = mul(a, b). */
  function Dot2(a: Simd4f, b: Simd4f): (r: Simd4f)
    ensures r == Splat(r.x)
  {
    var m := Mul(a, b);
    Add(SplatLane(m, 0), SplatLane(m, 1))
  }

  /** Over the reals the two summation orders agree, and the dot products
    * only read the lanes they are named after. */
  lemma SumOrders(a: Simd4f)
    ensures Sum(a) == SumSequential(a) == Splat(a.x + a.y + a.z + a.w)
  {
  }

  lemma Dot4Value(a: Simd4f, b: Simd4f)
    ensures Dot4(a, b) == Splat((a.x * b.x + a.y * b.y) + (a.z * b.z + a.w * b.w))
  {
  }

  lemma Dot2Value(a: Simd4f, b: Simd4f)
    ensures Dot2(a, b) == Splat(a.x * b.x + a.y * b.y)
  {
  }

  /** dot4 of a vector whose w lane is zero is dot3. */
  lemma DotZeroW(a: Simd4f, b: Simd4f)
    ensures Dot4(ZeroW(a), b) == Dot3(a, b)
  {
    MulZeroLanes(a, b);
  }

  /** dot4 of a vector whose z and w lanes are zero is dot2. */
  lemma DotZeroZW(a: Simd4f, b: Simd4f)
    ensures Dot4(ZeroZW(a), b) == Dot2(a, b)
  {
    Dot4Value(ZeroZW(a), b);
    Dot2Value(a, b);
    ZeroTimes(b.z);
    ZeroTimes(b.w);
  }

  lemma MulZeroLanes(a: Simd4f, b: Simd4f)
    ensures Mul(ZeroW(a), b) == ZeroW(Mul(a, b))
    ensures Mul(ZeroZW(a), b) == ZeroZW(Mul(a, b))
  {
    ZeroTimes(b.z);
    ZeroTimes(b.w);
  }

  lemma ZeroTimes(u: real)
    ensures 0.0 * u == 0.0
  {
  }

  /** The dot products only read the lanes they are named after and are
    * symmetric. */
  lemma DotProperties(a: Simd4f, b: Simd4f)
    ensures Dot2(a, b) == Dot2(ZeroZW(a), ZeroZW(b))
    ensures Dot3(a, b) == Dot3(ZeroW(a), ZeroW(b))
    ensures Dot4(a, b) == Dot4(b, a) && Dot3(a, b) == Dot3(b, a) && Dot2(a, b) == Dot2(b, a)
  {
    Dot4Value(a, b);
    Dot4Value(b, a);
  }

  // ----- zero tests -----

  /** is_zero4: cmp_eq against the zero vector, exact. */
  predicate IsZero4(v: Simd4f)
  {
    CmpEq(v, Zero)
  }

  /** is_zero3 / is_zero2 of the generic header: every lane within
    * FLT_EPSILON of zero. */
  predicate IsZero3(v: Simd4f)
  {
    C.Abs(v.x) <= P.FltEpsilon && C.Abs(v.y) <= P.FltEpsilon && C.Abs(v.z) <= P.FltEpsilon
  }

  predicate IsZero2(v: Simd4f)
  {
    C.Abs(v.x) <= P.FltEpsilon && C.Abs(v.y) <= P.FltEpsilon
  }

  /** is_zero3 / is_zero2 of the common header: exact comparisons. */
  predicate IsZero3Exact(v: Simd4f)
  {
    v.x == 0.0 && v.y == 0.0 && v.z == 0.0
  }

  predicate IsZero2Exact(v: Simd4f)
  {
    v.x == 0.0 && v.y == 0.0
  }

  /** The exact tests are stricter than the tolerant ones, and the tolerant
    * ones accept lanes the exact ones reject. */
  lemma ZeroTests(v: Simd4f)
    ensures IsZero4(v) ==> IsZero3Exact(v) && IsZero2Exact(v)
    ensures IsZero3Exact(v) ==> IsZero3(v) && IsZero2Exact(v)
    ensures IsZero2Exact(v) ==> IsZero2(v)
    ensures IsZero3(v) ==> IsZero2(v)
    ensures IsZero3(Simd4(P.FltEpsilon, 0.0, 0.0, 0.0)) && !IsZero3Exact(Simd4(P.FltEpsilon, 0.0, 0.0, 0.0))
  {
  }

  // ----- interpolation and clamping -----

  /** interpolate of the generic header: (1 - f) * a + f * b. */
  function Interpolate(a: Simd4f, b: Simd4f, f: real): Simd4f
  {
    Add(Mul(Sub(Splat(1.0), Splat(f)), a), Mul(Splat(f), b))
  }

  /** interpolate of the common header: a + (b - a) * f. */
  function InterpolateCommon(a: Simd4f, b: Simd4f, f: real): Simd4f
  {
    Add(a, Mul(Sub(b, a), Splat(f)))
  }

  /** interpolate is graphene_lerp on every lane. */
  lemma InterpolateIsLerp(a: Simd4f, b: Simd4f, f: real)
    ensures Interpolate(a, b, f) ==
      Simd4(P.Lerp(a.x, b.x, f), P.Lerp(a.y, b.y, f), P.Lerp(a.z, b.z, f), P.Lerp(a.w, b.w, f))
  {
  }

  /** The generic and the common-header formulas agree. */
  lemma InterpolateForms(a: Simd4f, b: Simd4f, f: real)
    ensures Interpolate(a, b, f) == InterpolateCommon(a, b, f)
  {
    InterpolateIsLerp(a, b, f);
    LerpForms(a.x, b.x, f);
    LerpForms(a.y, b.y, f);
    LerpForms(a.z, b.z, f);
    LerpForms(a.w, b.w, f);
  }

  /** A factor of 0 gives the first vector, 1 the second. */
  lemma InterpolateEnds(a: Simd4f, b: Simd4f)
    ensures Interpolate(a, b, 0.0) == a
    ensures Interpolate(a, b, 1.0) == b
  {
    InterpolateIsLerp(a, b, 0.0);
    InterpolateIsLerp(a, b, 1.0);
    P.LerpEnds(a.x, b.x);
    P.LerpEnds(a.y, b.y);
    P.LerpEnds(a.z, b.z);
    P.LerpEnds(a.w, b.w);
  }

  /** The two interpolation formulas agree over the reals. */
  lemma LerpForms(u: real, v: real, f: real)
    ensures P.Lerp(u, v, f) == u + (v - u) * f
  {
  }

  /** min / max: `a < b ? a : b` and `a > b ? a : b` per lane. */
  function Min(a: Simd4f, b: Simd4f): Simd4f
  {
    Simd4(P.Min(a.x, b.x), P.Min(a.y, b.y), P.Min(a.z, b.z), P.Min(a.w, b.w))
  }

  function Max(a: Simd4f, b: Simd4f): Simd4f
  {
    Simd4(P.Max(a.x, b.x), P.Max(a.y, b.y), P.Max(a.z, b.z), P.Max(a.w, b.w))
  }

  /** clamp(v, lo, hi) = min(max(lo, v), hi): inside [lo, hi] on every lane
    * where lo <= hi, and v itself where v already lies inside. */
  function Clamp(v: Simd4f, lo: Simd4f, hi: Simd4f): (r: Simd4f)
    ensures forall i :: 0 <= i < 4 && Get(lo, i) <= Get(hi, i) ==>
      Get(lo, i) <= Get(r, i) <= Get(hi, i)
    ensures forall i :: 0 <= i < 4 && Get(lo, i) <= Get(v, i) <= Get(hi, i) ==>
      Get(r, i) == Get(v, i)
  {
    Min(Max(lo, v), hi)
  }

  /** clamp_scalar is clamp with both bounds splatted. */
  function ClampScalar(v: Simd4f, lo: real, hi: real): (r: Simd4f)
    ensures lo <= hi ==> forall i :: 0 <= i < 4 ==> lo <= Get(r, i) <= hi
    ensures lo <= hi ==> forall i :: 0 <= i < 4 ==> Get(r, i) == P.Clamp(Get(v, i), lo, hi)
  {
    Clamp(v, Splat(lo), Splat(hi))
  }

  /** min_val: two rotate-and-min steps leave the smallest lane everywhere. */
  function MinVal(v: Simd4f): (r: Simd4f)
    ensures r == Splat(r.x)
    ensures r.x <= v.x && r.x <= v.y && r.x <= v.z && r.x <= v.w
    ensures r.x == v.x || r.x == v.y || r.x == v.z || r.x == v.w
  {
    var s1 := Min(v, ShuffleWXYZ(v));
    var s2 := Min(s1, ShuffleZWXY(s1));
    s2
  }

  /** max_val: two rotate-and-max steps leave the largest lane everywhere. */
  function MaxVal(v: Simd4f): (r: Simd4f)
    ensures r == Splat(r.x)
    ensures r.x >= v.x && r.x >= v.y && r.x >= v.z && r.x >= v.w
    ensures r.x == v.x || r.x == v.y || r.x == v.z || r.x == v.w
  {
    var s1 := Max(v, ShuffleWXYZ(v));
    var s2 := Max(s1, ShuffleZWXY(s1));
    s2
  }

  // ----- lane permutations and merges -----

  function ShuffleWXYZ(v: Simd4f): Simd4f { Simd4(v.w, v.x, v.y, v.z) }

  function ShuffleZWXY(v: Simd4f): Simd4f { Simd4(v.z, v.w, v.x, v.y) }

  function ShuffleYZWX(v: Simd4f): Simd4f { Simd4(v.y, v.z, v.w, v.x) }

  /** The shuffles are the rotations of the four lanes: wxyz rotates by one,
    * zwxy by two and yzwx by three, so they compose like addition mod 4. */
  lemma ShuffleRotations(v: Simd4f)
    ensures forall i :: 0 <= i < 4 ==> Get(ShuffleWXYZ(v), i) == Get(v, (i + 3) % 4)
    ensures forall i :: 0 <= i < 4 ==> Get(ShuffleZWXY(v), i) == Get(v, (i + 2) % 4)
    ensures forall i :: 0 <= i < 4 ==> Get(ShuffleYZWX(v), i) == Get(v, (i + 1) % 4)
    ensures ShuffleZWXY(ShuffleZWXY(v)) == v
    ensures ShuffleWXYZ(ShuffleYZWX(v)) == v && ShuffleYZWX(ShuffleWXYZ(v)) == v
    ensures ShuffleWXYZ(ShuffleWXYZ(v)) == ShuffleZWXY(v)
  {
  }

  /** zero_w: lane w cleared. */
  function ZeroW(v: Simd4f): Simd4f
  {
    Simd4(v.x, v.y, v.z, 0.0)
  }

  /** zero_zw: lanes z and w cleared. */
  function ZeroZW(v: Simd4f): Simd4f
  {
    Simd4(v.x, v.y, 0.0, 0.0)
  }

  /** merge_w(s, v): lane w replaced by v. */
  function MergeW(s: Simd4f, v: real): (r: Simd4f)
    ensures Lanes(r)[..3] == Lanes(s)[..3] && r.w == v
  {
    Simd4(s.x, s.y, s.z, v)
  }

  /** merge_high(a, b) = (a.z, a.w, b.z, b.w). */
  function MergeHigh(a: Simd4f, b: Simd4f): (r: Simd4f)
    ensures Lanes(r) == Lanes(a)[2..] + Lanes(b)[2..]
  {
    Simd4(a.z, a.w, b.z, b.w)
  }

  /** merge_low(a, b) = (a.x, a.y, b.x, b.y). */
  function MergeLow(a: Simd4f, b: Simd4f): (r: Simd4f)
    ensures Lanes(r) == Lanes(a)[..2] + Lanes(b)[..2]
  {
    Simd4(a.x, a.y, b.x, b.y)
  }

  /** Splitting a vector into its low and high halves and merging them back
    * is the identity; the trailing-lane replacements only touch their
    * lanes. */
  lemma MergeRoundTrips(v: Simd4f, u: Simd4f, t: Simd4f)
    ensures MergeLow(MergeLow(v, u), MergeHigh(v, t)) == v
    ensures MergeHigh(MergeLow(u, v), MergeLow(t, ShuffleZWXY(v))) == v
    ensures MergeW(v, v.w) == v
  {
  }

  lemma ZeroLaneFacts(v: Simd4f, s: real)
    ensures ZeroW(MergeW(v, s)) == ZeroW(v)
    ensures ZeroZW(ZeroW(v)) == ZeroZW(v) == ZeroW(ZeroZW(v))
    ensures MergeW(ZeroW(v), v.w) == v
  {
  }

  /** flip_sign_0101 negates y and w; flip_sign_1010 negates x and z. */
  function FlipSign0101(v: Simd4f): Simd4f { Simd4(v.x, -v.y, v.z, -v.w) }

  function FlipSign1010(v: Simd4f): Simd4f { Simd4(-v.x, v.y, -v.z, v.w) }

  lemma FlipSignProperties(v: Simd4f)
    ensures FlipSign0101(FlipSign0101(v)) == v
    ensures FlipSign1010(FlipSign1010(v)) == v
    ensures FlipSign0101(FlipSign1010(v)) == Neg(v)
  {
  }

  // ----- comparisons -----

  /** cmp_eq .. cmp_gt: the relation holds on all four lanes. */
  predicate CmpEq(a: Simd4f, b: Simd4f)
  {
    a.x == b.x && a.y == b.y && a.z == b.z && a.w == b.w
  }

  predicate CmpLt(a: Simd4f, b: Simd4f)
  {
    a.x < b.x && a.y < b.y && a.z < b.z && a.w < b.w
  }

  predicate CmpLe(a: Simd4f, b: Simd4f)
  {
    a.x <= b.x && a.y <= b.y && a.z <= b.z && a.w <= b.w
  }

  predicate CmpGe(a: Simd4f, b: Simd4f)
  {
    a.x >= b.x && a.y >= b.y && a.z >= b.z && a.w >= b.w
  }

  predicate CmpGt(a: Simd4f, b: Simd4f)
  {
    a.x > b.x && a.y > b.y && a.z > b.z && a.w > b.w
  }

  lemma CmpAllLanes(a: Simd4f, b: Simd4f)
    ensures CmpEq(a, b) <==> a == b
    ensures CmpLt(a, b) <==> forall i :: 0 <= i < 4 ==> Get(a, i) < Get(b, i)
    ensures CmpLe(a, b) <==> forall i :: 0 <= i < 4 ==> Get(a, i) <= Get(b, i)
    ensures CmpGe(a, b) <==> CmpLe(b, a)
    ensures CmpGt(a, b) <==> CmpLt(b, a)
    ensures CmpLt(a, b) ==> CmpLe(a, b) && !CmpEq(a, b)
  {
    assert Get(a, 0) == a.x && Get(a, 1) == a.y && Get(a, 2) == a.z && Get(a, 3) == a.w;
    assert Get(b, 0) == b.x && Get(b, 1) == b.y && Get(b, 2) == b.z && Get(b, 3) == b.w;
  }

  /** cmp_neq of the vector-extension branch: the negation of cmp_eq,
    * true as soon as one lane differs. */
  predicate CmpNeq(a: Simd4f, b: Simd4f)
    ensures CmpNeq(a, b) <==> a.x != b.x || a.y != b.y || a.z != b.z || a.w != b.w
  {
    !CmpEq(a, b)
  }

  /** cmp_neq of the scalar fallback as written: `!=` on every lane, so it
    * implies the intended cmp_neq. */
  predicate CmpNeqAllLanes(a: Simd4f, b: Simd4f)
    ensures CmpNeqAllLanes(a, b) ==> CmpNeq(a, b)
  {
    a.x != b.x && a.y != b.y && a.z != b.z && a.w != b.w
  }

  /** The intended cmp_neq holds iff some lane differs. */
  lemma CmpNeqSomeLane(a: Simd4f, b: Simd4f)
    ensures CmpNeq(a, b) <==> exists i :: 0 <= i < 4 && Get(a, i) != Get(b, i)
  {
    if CmpNeq(a, b) {
      if a.x != b.x { assert Get(a, 0) != Get(b, 0); }
      else if a.y != b.y { assert Get(a, 1) != Get(b, 1); }
      else if a.z != b.z { assert Get(a, 2) != Get(b, 2); }
      else { assert Get(a, 3) != Get(b, 3); }
    }
  }

  /** The scalar cmp_neq says "not different" for vectors that are not
    * equal either: (1, 0, 1, 0) against splat(1). */
  lemma CmpNeqAllLanesCounterexample()
    ensures !CmpEq(Simd4(1.0, 0.0, 1.0, 0.0), Splat(1.0))
    ensures !CmpNeqAllLanes(Simd4(1.0, 0.0, 1.0, 0.0), Splat(1.0))
    ensures CmpNeq(Simd4(1.0, 0.0, 1.0, 0.0), Splat(1.0))
  {
  }

  /** The scalar version is only ever stricter than the intended one. */
  lemma CmpNeqAllLanesImplies(a: Simd4f, b: Simd4f)
    ensures CmpNeqAllLanes(a, b) ==> CmpNeq(a, b)
  {
  }
}

/** The same lanewise operations applied to lanes that may hold the
  * infinities the boxes use as sentinels. */
module Simd4Ext {

  import opened ExtReal
  import S = Simd

  datatype Simd4e = Simd4e(x: EReal, y: EReal, z: EReal, w: EReal)

  function Get(v: Simd4e, i: nat): EReal
    requires i < 4
  {
    if i == 0 then v.x else if i == 1 then v.y else if i == 2 then v.z else v.w
  }

  function Splat(s: EReal): Simd4e { Simd4e(s, s, s, s) }

  /** A finite vector seen as one whose lanes might have been infinite. */
  function Lift(v: S.Simd4f): (r: Simd4e)
    ensures forall i :: 0 <= i < 4 ==> Get(r, i) == Fin(S.Get(v, i))
  {
    Simd4e(Fin(v.x), Fin(v.y), Fin(v.z), Fin(v.w))
  }

  predicate IsFinite(v: Simd4e)
  {
    v.x.Fin? && v.y.Fin? && v.z.Fin? && v.w.Fin?
  }

  /** The finite lanes of a vector with no infinite lane. */
  function Lower(v: Simd4e): (r: S.Simd4f)
    requires IsFinite(v)
    ensures Lift(r) == v
  {
    S.Simd4(v.x.r, v.y.r, v.z.r, v.w.r)
  }

  function Min(a: Simd4e, b: Simd4e): Simd4e
  {
    Simd4e(ExtReal.Min(a.x, b.x), ExtReal.Min(a.y, b.y), ExtReal.Min(a.z, b.z), ExtReal.Min(a.w, b.w))
  }

  function Max(a: Simd4e, b: Simd4e): Simd4e
  {
    Simd4e(ExtReal.Max(a.x, b.x), ExtReal.Max(a.y, b.y), ExtReal.Max(a.z, b.z), ExtReal.Max(a.w, b.w))
  }

  /** cmp_le: the relation on all four lanes. */
  predicate CmpLe(a: Simd4e, b: Simd4e)
  {
    Le(a.x, b.x) && Le(a.y, b.y) && Le(a.z, b.z) && Le(a.w, b.w)
  }

  predicate CmpGe(a: Simd4e, b: Simd4e)
  {
    CmpLe(b, a)
  }

  predicate AddDefined4(a: Simd4e, b: Simd4e)
  {
    AddDefined(a.x, b.x) && AddDefined(a.y, b.y) && AddDefined(a.z, b.z) && AddDefined(a.w, b.w)
  }

  function Add(a: Simd4e, b: Simd4e): Simd4e
    requires AddDefined4(a, b)
  {
    Simd4e(ExtReal.Add(a.x, b.x), ExtReal.Add(a.y, b.y), ExtReal.Add(a.z, b.z), ExtReal.Add(a.w, b.w))
  }

  function Neg4(a: Simd4e): Simd4e
  {
    Simd4e(Neg(a.x), Neg(a.y), Neg(a.z), Neg(a.w))
  }

  function Sub(a: Simd4e, b: Simd4e): Simd4e
    requires AddDefined4(a, Neg4(b))
  {
    Add(a, Neg4(b))
  }

  predicate MulDefined4(a: Simd4e, b: Simd4e)
  {
    MulDefined(a.x, b.x) && MulDefined(a.y, b.y) && MulDefined(a.z, b.z) && MulDefined(a.w, b.w)
  }

  function Mul(a: Simd4e, b: Simd4e): Simd4e
    requires MulDefined4(a, b)
  {
    Simd4e(ExtReal.Mul(a.x, b.x), ExtReal.Mul(a.y, b.y), ExtReal.Mul(a.z, b.z), ExtReal.Mul(a.w, b.w))
  }

  /** On finite lanes the extended operations are the plain ones. */
  lemma LiftCommutes(a: S.Simd4f, b: S.Simd4f)
    ensures Min(Lift(a), Lift(b)) == Lift(S.Min(a, b))
    ensures Max(Lift(a), Lift(b)) == Lift(S.Max(a, b))
    ensures CmpLe(Lift(a), Lift(b)) <==> S.CmpLe(a, b)
    ensures Add(Lift(a), Lift(b)) == Lift(S.Add(a, b))
    ensures Sub(Lift(a), Lift(b)) == Lift(S.Sub(a, b))
    ensures Mul(Lift(a), Lift(b)) == Lift(S.Mul(a, b))
  {
    LiftOrder(a, b);
    LiftArith(a, b);
  }

  /** The comparisons of LiftCommutes. */
  lemma LiftOrder(a: S.Simd4f, b: S.Simd4f)
    ensures Min(Lift(a), Lift(b)) == Lift(S.Min(a, b))
    ensures Max(Lift(a), Lift(b)) == Lift(S.Max(a, b))
    ensures CmpLe(Lift(a), Lift(b)) <==> S.CmpLe(a, b)
  {
  }

  /** The arithmetic of LiftCommutes. */
  lemma LiftArith(a: S.Simd4f, b: S.Simd4f)
    ensures Add(Lift(a), Lift(b)) == Lift(S.Add(a, b))
    ensures Sub(Lift(a), Lift(b)) == Lift(S.Sub(a, b))
    ensures Mul(Lift(a), Lift(b)) == Lift(S.Mul(a, b))
  {
  }

  /** Lanewise min and max are greatest lower and least upper bounds. */
  lemma MinMaxBounds(a: Simd4e, b: Simd4e, c: Simd4e)
    ensures CmpLe(Min(a, b), a) && CmpLe(Min(a, b), b)
    ensures CmpLe(a, Max(a, b)) && CmpLe(b, Max(a, b))
    ensures CmpLe(c, a) && CmpLe(c, b) ==> CmpLe(c, Min(a, b))
    ensures CmpLe(a, c) && CmpLe(b, c) ==> CmpLe(Max(a, b), c)
  {
  }

  lemma CmpLeTrans(a: Simd4e, b: Simd4e, c: Simd4e)
    requires CmpLe(a, b) && CmpLe(b, c)
    ensures CmpLe(a, c)
  {
    LeTrans(a.x, b.x, c.x);
    LeTrans(a.y, b.y, c.y);
    LeTrans(a.z, b.z, c.z);
    LeTrans(a.w, b.w, c.w);
  }
}
