// graphene_box_t: two vec3 corners, min and max, kept as four lanes each
// (the w lane is 0 for every vec3 the library builds). The lanes may hold
// the infinities of the empty and infinite boxes. Every operation reads its
// inputs before it writes res, so the operations return values.

module Boxes {

  import opened Common
  import E = ExtReal
  import SE = Simd4Ext
  import S = Simd
  import V = Vectors
  import P = Private
  import P3 = Points3D

  datatype Box = Box(min: SE.Simd4e, max: SE.Simd4e)

  /** A graphene_point3d_t filled from lanes that may be infinite. */
  datatype EPoint3 = EPoint3(x: E.EReal, y: E.EReal, z: E.EReal)

  const Z: E.EReal := E.Fin(0.0)

  function Lanes(x: real, y: real, z: real): SE.Simd4e
  {
    SE.Simd4e(E.Fin(x), E.Fin(y), E.Fin(z), Z)
  }

  /** graphene_point3d_to_vec3: the point with w = 0. */
  function Lift(p: P3.Point3D): SE.Simd4e { Lanes(p.x, p.y, p.z) }

  function Point(v: SE.Simd4e): EPoint3 { EPoint3(v.x, v.y, v.z) }

  // ----- the static boxes -----

  const Zero: Box := Box(Lanes(0.0, 0.0, 0.0), Lanes(0.0, 0.0, 0.0))
  const One: Box := Box(Lanes(0.0, 0.0, 0.0), Lanes(1.0, 1.0, 1.0))
  const MinusOne: Box := Box(Lanes(-1.0, -1.0, -1.0), Lanes(0.0, 0.0, 0.0))
  const OneMinusOne: Box := Box(Lanes(-1.0, -1.0, -1.0), Lanes(1.0, 1.0, 1.0))
  const Infinite: Box :=
    Box(SE.Simd4e(E.NegInf, E.NegInf, E.NegInf, Z), SE.Simd4e(E.PosInf, E.PosInf, E.PosInf, Z))
  const Empty: Box :=
    Box(SE.Simd4e(E.PosInf, E.PosInf, E.PosInf, Z), SE.Simd4e(E.NegInf, E.NegInf, E.NegInf, Z))

  /** Both w lanes are 0, as in every box built from points and vec3s. */
  predicate W0(b: Box) { b.min.w == Z && b.max.w == Z }

  /** All lanes finite. */
  predicate Finite(b: Box) { SE.IsFinite(b.min) && SE.IsFinite(b.max) }

  // ----- initialisers and getters -----

  function PointOr0(p: Option<P3.Point3D>): P3.Point3D
  {
    if p.Some? then p.value else P3.Point3D(0.0, 0.0, 0.0)
  }

  /** graphene_box_init: a NULL corner is the zero vector. */
  function Init(min: Option<P3.Point3D>, max: Option<P3.Point3D>): Box
  {
    Box(Lift(PointOr0(min)), Lift(PointOr0(max)))
  }

  /** graphene_box_init_from_vec3: a NULL corner is the zero vector. */
  function InitFromVec3(min: Option<S.Simd4f>, max: Option<S.Simd4f>): Box
  {
    Box(SE.Lift(if min.Some? then min.value else S.Zero), SE.Lift(if max.Some? then max.value else S.Zero))
  }

  /** graphene_box_init_from_box copies both corners. */
  function InitFromBox(src: Box): Box { Box(src.min, src.max) }

  /** graphene_box_get_min and graphene_box_get_max. */
  function GetMin(b: Box): EPoint3 { Point(b.min) }

  function GetMax(b: Box): EPoint3 { Point(b.max) }

  function LiftPoint(p: P3.Point3D): EPoint3 { EPoint3(E.Fin(p.x), E.Fin(p.y), E.Fin(p.z)) }

  /** The init tests: the corners read back, NULL corners give the zero
    * box, and init_from_vec3 of zero and one agrees with init. */
  lemma InitReadBack(min: Option<P3.Point3D>, max: Option<P3.Point3D>)
    ensures GetMin(Init(min, max)) == LiftPoint(PointOr0(min))
    ensures GetMax(Init(min, max)) == LiftPoint(PointOr0(max))
    ensures Init(None, None) == Zero && InitFromVec3(None, None) == Zero
    ensures InitFromVec3(Some(S.Zero), Some(S.Simd4(1.0, 1.0, 1.0, 0.0))) == One
    ensures W0(Init(min, max)) && InitFromBox(Init(min, max)) == Init(min, max)
  {
  }

  // ----- expand -----

  /** graphene_box_expand_simd4f: lanewise min into min, max into max. */
  function ExpandLanes(b: Box, v: SE.Simd4e): Box
  {
    Box(SE.Min(b.min, v), SE.Max(b.max, v))
  }

  /** graphene_box_expand_vec3. */
  function ExpandVec3(b: Box, v: S.Simd4f): Box { ExpandLanes(b, SE.Lift(v)) }

  /** graphene_box_expand: the point as (x, y, z, 0). */
  function Expand(b: Box, p: P3.Point3D): Box { ExpandLanes(b, Lift(p)) }

  /** graphene_box_expand_scalar: every lane of min moves by -s and every
    * lane of max by +s (w included). */
  function ExpandScalar(b: Box, s: real): Box
  {
    Box(SE.Add(b.min, SE.Splat(E.Fin(-s))), SE.Add(b.max, SE.Splat(E.Fin(s))))
  }

  /** graphene_box_union: lanewise min of the mins and max of the maxes, so
    * its corners lie outside those of both boxes. */
  function Union(a: Box, b: Box): (u: Box)
    ensures SE.CmpLe(u.min, a.min) && SE.CmpLe(u.min, b.min)
    ensures SE.CmpLe(a.max, u.max) && SE.CmpLe(b.max, u.max)
  {
    Box(SE.Min(a.min, b.min), SE.Max(a.max, b.max))
  }

  // ----- containment and equality -----

  /** graphene_box_contains_point: min <= (x, y, z, 0) <= max on all four
    * lanes. */
  predicate ContainsPoint(b: Box, p: P3.Point3D)
  {
    SE.CmpGe(Lift(p), b.min) && SE.CmpLe(Lift(p), b.max)
  }

  /** graphene_box_contains_box: b's min at or above a's and b's max at or
    * below a's, lane by lane. */
  predicate ContainsBox(a: Box, b: Box)
  {
    SE.CmpGe(b.min, a.min) && SE.CmpLe(b.max, a.max)
  }

  /** graphene_vec3_equal on lanes that may be infinite: exact equality of
    * the four lanes, or (only when all are finite) within
    * GRAPHENE_FLOAT_EPSILON over x, y and z. */
  predicate LanesEqual(a: SE.Simd4e, b: SE.Simd4e)
  {
    a == b || (SE.IsFinite(a) && SE.IsFinite(b) && V.Vec3EqualValues(SE.Lower(a), SE.Lower(b)))
  }

  /** box_equal: both corners vec3-equal. */
  predicate BoxEqual(a: Box, b: Box) { LanesEqual(a.min, b.min) && LanesEqual(a.max, b.max) }

  /** graphene_box_equal. */
  function Equal(p: PtrPair<Box>): bool { PointerEqual(p, BoxEqual) }

  // ----- size and vertices -----

  /** graphene_box_get_size: max - min (None where that is inf - inf). */
  function GetSize(b: Box): Option<SE.Simd4e>
  {
    if SE.AddDefined4(b.max, SE.Neg4(b.min)) then Some(SE.Sub(b.max, b.min)) else None
  }

  /** graphene_box_get_width: |max.x - min.x| (None where that is
    * inf - inf). */
  function GetWidth(b: Box): Option<E.EReal>
  {
    if E.AddDefined(b.max.x, E.Neg(b.min.x)) then Some(E.Magnitude(E.Sub(b.max.x, b.min.x))) else None
  }

  /** graphene_box_get_height: |max.y - min.y|. */
  function GetHeight(b: Box): Option<E.EReal>
  {
    if E.AddDefined(b.max.y, E.Neg(b.min.y)) then Some(E.Magnitude(E.Sub(b.max.y, b.min.y))) else None
  }

  /** graphene_box_get_depth: |max.z - min.z|. */
  function GetDepth(b: Box): Option<E.EReal>
  {
    if E.AddDefined(b.max.z, E.Neg(b.min.z)) then Some(E.Magnitude(E.Sub(b.max.z, b.min.z))) else None
  }

  /** graphene_box_get_vertices: the eight corners, z varying fastest,
    * then y, then x. */
  function GetVertices(b: Box): (vs: seq<EPoint3>)
    ensures |vs| == 8
  {
    var lo, hi := GetMin(b), GetMax(b);
    [EPoint3(lo.x, lo.y, lo.z), EPoint3(lo.x, lo.y, hi.z), EPoint3(lo.x, hi.y, lo.z), EPoint3(lo.x, hi.y, hi.z),
     EPoint3(hi.x, lo.y, lo.z), EPoint3(hi.x, lo.y, hi.z), EPoint3(hi.x, hi.y, lo.z), EPoint3(hi.x, hi.y, hi.z)]
  }

  // ----- intersection: as written and corrected -----

  /** The boolean graphene_box_intersection returns, and the box it writes
    * through a non-NULL res. */
  datatype Overlap = Overlap(ok: bool, res: Box)

  /** graphene_box_intersection as written: it reports no intersection only
    * when cmp_ge holds on all four lanes of (larger min, smaller max), that
    * is only when the boxes are apart (or touching) on every axis at once. */
  function IntersectionAsWritten(a: Box, b: Box): (o: Overlap)
    ensures !o.ok ==> o.res == Empty
    ensures o.ok && Intersection(a, b).ok ==> o == Intersection(a, b)
  {
    var mn, mx := SE.Max(a.min, b.min), SE.Min(a.max, b.max);
    if SE.CmpGe(mn, mx) then Overlap(false, Empty) else Overlap(true, Box(mn, mx))
  }

  /** The intersection the tests expect, as graphene_box2d_intersection
    * computes it: no intersection as soon as one lane has min > max. */
  function Intersection(a: Box, b: Box): (o: Overlap)
    ensures !o.ok ==> o.res == Empty
    ensures o.ok ==> SE.CmpLe(o.res.min, o.res.max)
    ensures o.ok ==> SE.CmpLe(a.min, o.res.min) && SE.CmpLe(b.min, o.res.min)
    ensures o.ok ==> SE.CmpLe(o.res.max, a.max) && SE.CmpLe(o.res.max, b.max)
  {
    var mn, mx := SE.Max(a.min, b.min), SE.Min(a.max, b.max);
    if !SE.CmpLe(mn, mx) then Overlap(false, Empty) else Overlap(true, Box(mn, mx))
  }

  /** The horizontally separated boxes of the test: the code as written
    * reports an intersection, although no point lies in both, while the
    * corrected test reports none. */
  lemma IntersectionAsWrittenCounterexample(p: P3.Point3D)
    ensures IntersectionAsWritten(Init(Some(P3.Point3D(5.0, 0.0, 0.0)), Some(P3.Point3D(6.0, 1.0, 1.0))),
                                  Init(Some(P3.Point3D(7.0, 0.0, 0.0)), Some(P3.Point3D(8.0, 1.0, 1.0)))).ok
    ensures !Intersection(Init(Some(P3.Point3D(5.0, 0.0, 0.0)), Some(P3.Point3D(6.0, 1.0, 1.0))),
                          Init(Some(P3.Point3D(7.0, 0.0, 0.0)), Some(P3.Point3D(8.0, 1.0, 1.0)))).ok
    ensures !(ContainsPoint(Init(Some(P3.Point3D(5.0, 0.0, 0.0)), Some(P3.Point3D(6.0, 1.0, 1.0))), p) &&
              ContainsPoint(Init(Some(P3.Point3D(7.0, 0.0, 0.0)), Some(P3.Point3D(8.0, 1.0, 1.0))), p))
  {
  }

  /** For finite boxes the corrected intersection holds exactly when some
    * point lies in both boxes. */
  lemma IntersectionCommonPoint(a: Box, b: Box)
    requires Finite(a) && Finite(b) && W0(a) && W0(b)
    ensures Intersection(a, b).ok <==> exists p :: ContainsPoint(a, p) && ContainsPoint(b, p)
  {
    if Intersection(a, b).ok {
      var p := P3.Point3D(P.Max(a.min.x.r, b.min.x.r), P.Max(a.min.y.r, b.min.y.r), P.Max(a.min.z.r, b.min.z.r));
      assert ContainsPoint(a, p) && ContainsPoint(b, p);
    }
  }

  /** The corrected intersection holds exactly the common points. */
  lemma IntersectionExactPoints(a: Box, b: Box, p: P3.Point3D)
    requires Intersection(a, b).ok
    ensures ContainsPoint(Intersection(a, b).res, p) <==> ContainsPoint(a, p) && ContainsPoint(b, p)
  {
  }

  /** The intersection tests, all met by the corrected version: empty with
    * zero is empty, (-1, 1) with one is one, the infinite box with one is
    * one, and boxes separated along y or z alone do not intersect. */
  lemma IntersectionExample()
    ensures Intersection(Empty, Zero) == Overlap(false, Empty)
    ensures Intersection(OneMinusOne, One) == Overlap(true, One)
    ensures Intersection(Infinite, One) == Overlap(true, One)
    ensures !Intersection(Init(Some(P3.Point3D(0.0, 5.0, 0.0)), Some(P3.Point3D(1.0, 6.0, 1.0))),
                          Init(Some(P3.Point3D(0.0, 7.0, 0.0)), Some(P3.Point3D(1.0, 8.0, 1.0)))).ok
    ensures !Intersection(Init(Some(P3.Point3D(0.0, 0.0, 5.0)), Some(P3.Point3D(1.0, 1.0, 6.0))),
                          Init(Some(P3.Point3D(0.0, 0.0, 7.0)), Some(P3.Point3D(1.0, 1.0, 8.0)))).ok
  {
  }

  // ----- centre: as written and corrected -----

  /** graphene_box_get_center as written: (max - min) * 0.5, the
    * half-extent (None where max - min is inf - inf). */
  function GetCenterAsWritten(b: Box): (c: Option<EPoint3>)
    ensures Finite(b) ==> c.Some? && c.value.x.Fin? && c.value.y.Fin? && c.value.z.Fin?
    ensures Finite(b) ==> c.value.x.r == GetCenter(b).x.r - b.min.x.r
    ensures Finite(b) ==> c.value.y.r == GetCenter(b).y.r - b.min.y.r
    ensures Finite(b) ==> c.value.z.r == GetCenter(b).z.r - b.min.z.r
  {
    if !SE.AddDefined4(b.max, SE.Neg4(b.min)) then None
    else Some(Point(SE.Mul(SE.Sub(b.max, b.min), SE.Splat(E.Fin(0.5)))))
  }

  /** The centre the tests expect: the midpoint (min + max) * 0.5, and the
    * origin where a lane adds +inf and -inf (the empty and infinite boxes),
    * as graphene_box2d_get_center gives. */
  function GetCenter(b: Box): (c: EPoint3)
    ensures Finite(b) ==> c.x.Fin? && c.y.Fin? && c.z.Fin?
    ensures Finite(b) ==> c.x.r - b.min.x.r == b.max.x.r - c.x.r
    ensures Finite(b) ==> c.y.r - b.min.y.r == b.max.y.r - c.y.r
    ensures Finite(b) ==> c.z.r - b.min.z.r == b.max.z.r - c.z.r
    ensures !SE.AddDefined4(b.min, b.max) ==> c == EPoint3(Z, Z, Z)
  {
    if !SE.AddDefined4(b.min, b.max) then EPoint3(Z, Z, Z)
    else Point(SE.Mul(SE.Add(b.min, b.max), SE.Splat(E.Fin(0.5))))
  }

  /** The (-1, 1) box of the test: the code as written puts its centre at
    * (1, 1, 1), a corner, where the test expects the origin. */
  lemma CenterAsWrittenCounterexample()
    ensures GetCenterAsWritten(OneMinusOne) == Some(EPoint3(E.Fin(1.0), E.Fin(1.0), E.Fin(1.0)))
    ensures GetCenter(OneMinusOne) == EPoint3(Z, Z, Z)
  {
    CenterMidpoint(OneMinusOne);
    CenterAsWrittenIsHalfExtent(OneMinusOne);
  }

  /** On a finite box the corrected centre is equidistant from both
    * corners on every axis. */
  lemma CenterMidpoint(b: Box)
    requires Finite(b)
    ensures GetCenter(b) == EPoint3(E.Fin((b.min.x.r + b.max.x.r) / 2.0), E.Fin((b.min.y.r + b.max.y.r) / 2.0),
                                    E.Fin((b.min.z.r + b.max.z.r) / 2.0))
    ensures GetCenter(b).x.r - b.min.x.r == b.max.x.r - GetCenter(b).x.r
    ensures GetCenter(b).y.r - b.min.y.r == b.max.y.r - GetCenter(b).y.r
    ensures GetCenter(b).z.r - b.min.z.r == b.max.z.r - GetCenter(b).z.r
  {
  }

  /** On a finite box the code as written gives half the size. */
  lemma CenterAsWrittenIsHalfExtent(b: Box)
    requires Finite(b)
    ensures GetCenterAsWritten(b) == Some(EPoint3(E.Fin((b.max.x.r - b.min.x.r) / 2.0),
      E.Fin((b.max.y.r - b.min.y.r) / 2.0), E.Fin((b.max.z.r - b.min.z.r) / 2.0)))
  {
  }

  /** The centre tests: zero, one, (-1, 1) and minus one give 0, 0.5, 0
    * and -0.5 on every axis. */
  lemma CenterExample(zero: Box, one: Box, oneMinusOne: Box, minusOne: Box)
    requires zero == Zero && one == One && oneMinusOne == OneMinusOne && minusOne == MinusOne
    ensures GetCenter(zero) == EPoint3(Z, Z, Z)
    ensures GetCenter(one) == EPoint3(E.Fin(0.5), E.Fin(0.5), E.Fin(0.5))
    ensures GetCenter(oneMinusOne) == EPoint3(Z, Z, Z)
    ensures GetCenter(minusOne) == EPoint3(E.Fin(-0.5), E.Fin(-0.5), E.Fin(-0.5))
  {
    CenterMidpoint(zero);
    CenterMidpoint(one);
    CenterMidpoint(oneMinusOne);
    CenterMidpoint(minusOne);
  }

  /** The empty box's centre is the origin, as its test expects. */
  lemma CenterOfEmpty(b: Box)
    requires b == Empty
    ensures GetCenter(b) == EPoint3(Z, Z, Z)
  {
    assert !E.AddDefined(b.min.x, b.max.x);
  }

  // ----- properties of expand, union, size and containment -----

  /** The expanded box contains the point and everything the box
    * contained, and its corners only move outwards; expanding the empty box
    * gives the box of that single point. */
  lemma ExpandContains(b: Box, p: P3.Point3D, q: P3.Point3D)
    ensures ContainsPoint(Expand(b, p), p)
    ensures ContainsPoint(b, q) ==> ContainsPoint(Expand(b, p), q)
    ensures SE.CmpLe(Expand(b, p).min, b.min) && SE.CmpLe(b.max, Expand(b, p).max)
    ensures Expand(Empty, p) == Init(Some(p), Some(p))
    ensures W0(b) ==> W0(Expand(b, p))
  {
    var e := Expand(b, p);
    SE.MinMaxBounds(b.min, Lift(p), Lift(q));
    SE.MinMaxBounds(b.max, Lift(p), Lift(q));
    if ContainsPoint(b, q) {
      SE.CmpLeTrans(e.min, b.min, Lift(q));
      SE.CmpLeTrans(Lift(q), b.max, e.max);
    }
  }

  /** expand_vec3 of a vector with w = 0 is expand of its point. */
  lemma ExpandVec3IsExpand(b: Box, p: P3.Point3D)
    ensures ExpandVec3(b, S.Simd4(p.x, p.y, p.z, 0.0)) == Expand(b, p)
  {
  }

  /** Adding a finite amount to a lane moves a finite lane and keeps an
    * infinite one. */
  lemma AddFinLane(a: E.EReal, s: real)
    ensures E.AddDefined(a, E.Fin(s))
    ensures E.Add(a, E.Fin(s)) == (if a.Fin? then E.Fin(a.r + s) else a)
  {
  }

  /** On a finite box get_size is max - min. */
  lemma GetSizeFinite(b: Box)
    requires Finite(b)
    ensures GetSize(b) == Some(SE.Lift(S.Sub(SE.Lower(b.max), SE.Lower(b.min))))
  {
    SE.LiftCommutes(SE.Lower(b.max), SE.Lower(b.min));
  }

  /** expand_scalar grows every side of a finite box by 2s and by 0
    * changes nothing. */
  lemma ExpandScalarSize(b: Box, s: real)
    requires Finite(b)
    ensures GetSize(ExpandScalar(b, s)) ==
      Some(SE.Lift(S.Add(S.Sub(SE.Lower(b.max), SE.Lower(b.min)), S.Splat(2.0 * s))))
  {
    AddFinLane(b.min.x, -s);
    AddFinLane(b.min.y, -s);
    AddFinLane(b.min.z, -s);
    AddFinLane(b.min.w, -s);
    AddFinLane(b.max.x, s);
    AddFinLane(b.max.y, s);
    AddFinLane(b.max.z, s);
    AddFinLane(b.max.w, s);
    GetSizeFinite(ExpandScalar(b, s));
  }

  lemma ExpandScalarZero(b: Box)
    ensures ExpandScalar(b, 0.0) == b
  {
    AddFinLane(b.min.x, -0.0);
    AddFinLane(b.min.y, -0.0);
    AddFinLane(b.min.z, -0.0);
    AddFinLane(b.min.w, -0.0);
    AddFinLane(b.max.x, 0.0);
    AddFinLane(b.max.y, 0.0);
    AddFinLane(b.max.z, 0.0);
    AddFinLane(b.max.w, 0.0);
  }

  /** The union tests, and the empty box as a unit for boxes with w = 0. */
  lemma UnionExample(b: Box)
    ensures Union(Zero, Zero) == Zero && Union(Zero, One) == One
    ensures Union(MinusOne, One) == OneMinusOne
    ensures W0(b) ==> Union(Empty, b) == b && Union(b, Empty) == b
  {
  }

  /** Union is commutative and contains every point of either box. */
  lemma UnionContains(a: Box, b: Box, p: P3.Point3D)
    ensures Union(a, b) == Union(b, a)
    ensures ContainsPoint(a, p) ==> ContainsPoint(Union(a, b), p)
  {
    var u := Union(a, b);
    SE.MinMaxBounds(a.min, b.min, Lift(p));
    SE.MinMaxBounds(a.max, b.max, Lift(p));
    if ContainsPoint(a, p) {
      SE.CmpLeTrans(u.min, a.min, Lift(p));
      SE.CmpLeTrans(Lift(p), a.max, u.max);
    }
  }

  /** The size tests: the cube from lo to hi has size hi - lo on each axis,
    * so zero has size 0, one has height 1 and (-1, 1) depth 2. */
  lemma SizeExample(b: Box, lo: real, hi: real)
    requires b == Box(Lanes(lo, lo, lo), Lanes(hi, hi, hi))
    ensures GetSize(b) == Some(Lanes(hi - lo, hi - lo, hi - lo))
    ensures lo == 0.0 && hi == 1.0 ==> GetSize(b).value.y == E.Fin(1.0)
    ensures lo == -1.0 && hi == 1.0 ==> GetSize(b).value.z == E.Fin(2.0)
  {
    GetSizeFinite(b);
    assert SE.Lower(b.max) == S.Simd4(hi, hi, hi, 0.0);
    assert SE.Lower(b.min) == S.Simd4(lo, lo, lo, 0.0);
  }

  /** An ordered finite box has a non-negative size. */
  lemma SizeNonNegative(b: Box)
    requires Finite(b) && SE.CmpLe(b.min, b.max)
    ensures GetSize(b).Some? && SE.CmpLe(SE.Lift(S.Zero), GetSize(b).value)
  {
    GetSizeFinite(b);
  }

  /** Width, height and depth are the lanes of get_size made
    * non-negative, so on an ordered finite box they are its size; the
    * empty and the infinite boxes both have width, height and depth +inf. */
  lemma ExtentsOfSize(b: Box)
    ensures GetSize(b).Some? ==>
      GetWidth(b) == Some(E.Magnitude(GetSize(b).value.x)) && GetHeight(b) == Some(E.Magnitude(GetSize(b).value.y)) &&
      GetDepth(b) == Some(E.Magnitude(GetSize(b).value.z))
    ensures Finite(b) && SE.CmpLe(b.min, b.max) ==>
      GetSize(b).Some? && GetWidth(b) == Some(GetSize(b).value.x) &&
      GetHeight(b) == Some(GetSize(b).value.y) && GetDepth(b) == Some(GetSize(b).value.z)
    ensures GetWidth(Empty) == GetHeight(Empty) == GetDepth(Empty) == Some(E.PosInf)
    ensures GetWidth(Infinite) == GetHeight(Infinite) == GetDepth(Infinite) == Some(E.PosInf)
  {
    if Finite(b) && SE.CmpLe(b.min, b.max) {
      GetSizeFinite(b);
    }
  }

  /** A finite box with min <= max and w = 0 contains its centre and its
    * eight vertices; the contains_point test's (-2, 2, -2) is outside
    * (-1, 1). */
  lemma ContainsCenterAndVertices(b: Box, i: nat)
    requires Finite(b) && W0(b) && SE.CmpLe(b.min, b.max) && i < 8
    ensures ContainsPoint(b, P3.Point3D(GetCenter(b).x.r, GetCenter(b).y.r, GetCenter(b).z.r))
    ensures GetVertices(b)[i].x.Fin? && GetVertices(b)[i].y.Fin? && GetVertices(b)[i].z.Fin?
    ensures ContainsPoint(b, P3.Point3D(GetVertices(b)[i].x.r, GetVertices(b)[i].y.r, GetVertices(b)[i].z.r))
  {
    CenterMidpoint(b);
  }

  lemma ContainsPointExample()
    ensures !ContainsPoint(OneMinusOne, P3.Point3D(-2.0, 2.0, -2.0))
    ensures ContainsPoint(Infinite, P3.Point3D(-2.0, 2.0, -2.0))
    ensures !ContainsPoint(Empty, P3.Point3D(0.0, 0.0, 0.0))
  {
  }

  /** When contains_box holds, every point of b is a point of a. */
  lemma ContainsBoxSound(a: Box, b: Box, p: P3.Point3D)
    requires ContainsBox(a, b) && ContainsPoint(b, p)
    ensures ContainsPoint(a, p)
  {
    SE.CmpLeTrans(a.min, b.min, Lift(p));
    SE.CmpLeTrans(Lift(p), b.max, a.max);
  }

  /** The contains_box tests: one does not contain minus one, (-1, 1)
    * contains one, the infinite box contains one and the empty box does
    * not; the empty box does count as containing the empty box. */
  lemma ContainsBoxExample()
    ensures !ContainsBox(One, MinusOne) && ContainsBox(OneMinusOne, One)
    ensures ContainsBox(Infinite, One) && !ContainsBox(Empty, One)
    ensures ContainsBox(Empty, Empty) && ContainsBox(One, Empty)
  {
  }

  /** Box equality is reflexive and symmetric, and equal(NULL, NULL) holds. */
  lemma EqualProperties(a: Box, b: Box)
    ensures BoxEqual(a, a) && Equal(Distinct(a, a)) && Equal(BothNull)
    ensures BoxEqual(a, b) <==> BoxEqual(b, a)
    ensures !BoxEqual(Empty, Infinite) && !BoxEqual(Empty, Zero)
  {
    if SE.IsFinite(a.min) && SE.IsFinite(b.min) {
      V.Vec3NearSymmetric(SE.Lower(a.min), SE.Lower(b.min), P.FloatEpsilon);
    }
    if SE.IsFinite(a.max) && SE.IsFinite(b.max) {
      V.Vec3NearSymmetric(SE.Lower(a.max), SE.Lower(b.max), P.FloatEpsilon);
    }
  }

  // ----- init_from_points and init_from_vectors -----

  /** The box init_from_points builds: the empty box expanded by each point
    * in turn. */
  function PointsBox(pts: seq<P3.Point3D>): Box
  {
    if |pts| == 0 then Empty else Expand(PointsBox(pts[..|pts| - 1]), pts[|pts| - 1])
  }

  /** graphene_box_init_from_points: start from the empty box and expand by
    * each point, turned into a vec3. */
  method InitFromPoints(points: seq<P3.Point3D>) returns (box: Box)
    ensures box == PointsBox(points)
  {
    box := InitFromBox(Empty);
    var i := 0;
    while i < |points|
      invariant 0 <= i <= |points|
      invariant box == PointsBox(points[..i])
    {
      assert points[..i + 1][..i] == points[..i];
      ExpandVec3IsExpand(box, points[i]);
      box := ExpandVec3(box, S.Simd4(points[i].x, points[i].y, points[i].z, 0.0));
      i := i + 1;
    }
    assert points[..|points|] == points;
  }

  /** The points a sequence of vec3 values (w = 0) stands for. */
  function PointsOf(vs: seq<S.Simd4f>): (pts: seq<P3.Point3D>)
    ensures |pts| == |vs|
    ensures forall i :: 0 <= i < |vs| ==> pts[i] == P3.Point3D(vs[i].x, vs[i].y, vs[i].z)
  {
    seq(|vs|, i requires 0 <= i < |vs| => P3.Point3D(vs[i].x, vs[i].y, vs[i].z))
  }

  /** graphene_box_init_from_vectors: the same loop over vec3 values. */
  method InitFromVectors(vectors: seq<S.Simd4f>) returns (box: Box)
    requires forall i :: 0 <= i < |vectors| ==> vectors[i].w == 0.0
    ensures box == PointsBox(PointsOf(vectors))
  {
    box := InitFromBox(Empty);
    var i := 0;
    while i < |vectors|
      invariant 0 <= i <= |vectors|
      invariant box == PointsBox(PointsOf(vectors)[..i])
    {
      assert PointsOf(vectors)[..i + 1][..i] == PointsOf(vectors)[..i];
      ExpandVec3IsExpand(box, PointsOf(vectors)[i]);
      assert vectors[i] == S.Simd4(vectors[i].x, vectors[i].y, vectors[i].z, 0.0);
      box := ExpandVec3(box, vectors[i]);
      i := i + 1;
    }
    assert PointsOf(vectors)[..|vectors|] == PointsOf(vectors);
  }

  /** No points give the empty box; otherwise the box has finite lanes,
    * w = 0, and contains every point. */
  lemma {:induction false} PointsBoxContains(pts: seq<P3.Point3D>)
    ensures |pts| == 0 ==> PointsBox(pts) == Empty
    ensures W0(PointsBox(pts))
    ensures |pts| > 0 ==> Finite(PointsBox(pts))
    ensures forall i :: 0 <= i < |pts| ==> ContainsPoint(PointsBox(pts), pts[i])
  {
    if |pts| > 0 {
      var init, last := pts[..|pts| - 1], pts[|pts| - 1];
      PointsBoxContains(init);
      ExpandContains(PointsBox(init), last, last);
      forall i | 0 <= i < |pts|
        ensures ContainsPoint(PointsBox(pts), pts[i])
      {
        ExpandContains(PointsBox(init), last, pts[i]);
        if i < |pts| - 1 {
          assert pts[i] == init[i];
        }
      }
    }
  }

  /** Each of the six corner lanes of a non-empty points box is a
    * coordinate of one of the points: the box is the componentwise
    * extremes. */
  lemma {:induction false} PointsBoxAttained(pts: seq<P3.Point3D>)
    requires |pts| > 0
    ensures exists i :: 0 <= i < |pts| && PointsBox(pts).min.x == E.Fin(pts[i].x)
    ensures exists i :: 0 <= i < |pts| && PointsBox(pts).min.y == E.Fin(pts[i].y)
    ensures exists i :: 0 <= i < |pts| && PointsBox(pts).min.z == E.Fin(pts[i].z)
    ensures exists i :: 0 <= i < |pts| && PointsBox(pts).max.x == E.Fin(pts[i].x)
    ensures exists i :: 0 <= i < |pts| && PointsBox(pts).max.y == E.Fin(pts[i].y)
    ensures exists i :: 0 <= i < |pts| && PointsBox(pts).max.z == E.Fin(pts[i].z)
  {
    var n := |pts| - 1;
    var init, last := pts[..n], pts[n];
    var b, r := PointsBox(init), PointsBox(pts);
    if n == 0 {
      assert r == Box(Lift(last), Lift(last));
    } else {
      PointsBoxAttained(init);
      var i0 :| 0 <= i0 < n && b.min.x == E.Fin(init[i0].x);
      var i1 :| 0 <= i1 < n && b.min.y == E.Fin(init[i1].y);
      var i2 :| 0 <= i2 < n && b.min.z == E.Fin(init[i2].z);
      var i3 :| 0 <= i3 < n && b.max.x == E.Fin(init[i3].x);
      var i4 :| 0 <= i4 < n && b.max.y == E.Fin(init[i4].y);
      var i5 :| 0 <= i5 < n && b.max.z == E.Fin(init[i5].z);
      assert r.min.x == E.Fin(pts[i0].x) || r.min.x == E.Fin(pts[n].x);
      assert r.min.y == E.Fin(pts[i1].y) || r.min.y == E.Fin(pts[n].y);
      assert r.min.z == E.Fin(pts[i2].z) || r.min.z == E.Fin(pts[n].z);
      assert r.max.x == E.Fin(pts[i3].x) || r.max.x == E.Fin(pts[n].x);
      assert r.max.y == E.Fin(pts[i4].y) || r.max.y == E.Fin(pts[n].y);
      assert r.max.z == E.Fin(pts[i5].z) || r.max.z == E.Fin(pts[n].z);
    }
  }

  /** The init_from_points test: (0, 0, 0), (1, 1, 1), (2, 2, 2) give min
    * (0, 0, 0) and max (2, 2, 2). */
  lemma PointsBoxExample(pts: seq<P3.Point3D>)
    requires pts == [P3.Point3D(0.0, 0.0, 0.0), P3.Point3D(1.0, 1.0, 1.0), P3.Point3D(2.0, 2.0, 2.0)]
    ensures PointsBox(pts) == Box(Lanes(0.0, 0.0, 0.0), Lanes(2.0, 2.0, 2.0))
  {
    assert pts[..2][..1] == pts[..1];
    assert pts[..1][..0] == [];
    assert PointsBox(pts[..1][..0]) == Empty;
    var b1 := PointsBox(pts[..1]);
    assert b1 == Expand(Empty, pts[0]);
    assert b1 == Box(Lanes(0.0, 0.0, 0.0), Lanes(0.0, 0.0, 0.0));
    var b2 := PointsBox(pts[..2]);
    assert b2 == Expand(b1, pts[1]);
    assert b2 == Box(Lanes(0.0, 0.0, 0.0), Lanes(1.0, 1.0, 1.0));
    assert PointsBox(pts) == Expand(b2, pts[2]);
  }
}
