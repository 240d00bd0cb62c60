// graphene_box2d_t: one vec4 minmax = (min.x, min.y, max.x, max.y) whose
// lanes may hold the infinities used by the empty and infinite boxes.
// Every operation reads its inputs before it writes res, so a res that
// aliases an input changes nothing and the operations return values.

module Boxes2D {

  import opened Common
  import E = ExtReal
  import SE = Simd4Ext
  import S = Simd
  import V = Vectors
  import Pt = Points
  import R = Rects
  import P = Private

  datatype Box2D = Box2D(minmax: SE.Simd4e)

  /** A graphene_point_t filled from the box's lanes, which may be infinite. */
  datatype EPoint = EPoint(x: E.EReal, y: E.EReal)

  const Z: E.EReal := E.Fin(0.0)

  /** merge_low (minmax, zero): the min corner as (min.x, min.y, 0, 0). */
  function MinV(b: Box2D): SE.Simd4e { SE.Simd4e(b.minmax.x, b.minmax.y, Z, Z) }

  /** merge_high (minmax, zero): the max corner as (max.x, max.y, 0, 0). */
  function MaxV(b: Box2D): SE.Simd4e { SE.Simd4e(b.minmax.z, b.minmax.w, Z, Z) }

  /** graphene_box2d_init_from_simd4f: merge_low (min, max). */
  function FromMinMax(min: SE.Simd4e, max: SE.Simd4e): Box2D
  {
    Box2D(SE.Simd4e(min.x, min.y, max.x, max.y))
  }

  /** Splitting a box into its corners and merging them back is the
    * identity. */
  lemma CornersRoundTrip(b: Box2D)
    ensures FromMinMax(MinV(b), MaxV(b)) == b
  {
  }

  function Lanes(x: real, y: real, z: real, w: real): SE.Simd4e
  {
    SE.Simd4e(E.Fin(x), E.Fin(y), E.Fin(z), E.Fin(w))
  }

  // ----- the static boxes -----

  const Zero: Box2D := Box2D(Lanes(0.0, 0.0, 0.0, 0.0))
  const One: Box2D := Box2D(Lanes(0.0, 0.0, 1.0, 1.0))
  const MinusOne: Box2D := Box2D(Lanes(-1.0, -1.0, 0.0, 0.0))
  const OneMinusOne: Box2D := Box2D(Lanes(-1.0, -1.0, 1.0, 1.0))
  const Infinite: Box2D := Box2D(SE.Simd4e(E.NegInf, E.NegInf, E.PosInf, E.PosInf))
  const Empty: Box2D := Box2D(SE.Simd4e(E.PosInf, E.PosInf, E.NegInf, E.NegInf))

  /** graphene_box2d_is_empty: both min lanes are +inf and both max lanes
    * are -inf. */
  predicate IsEmpty(b: Box2D)
  {
    b.minmax.x.PosInf? && b.minmax.y.PosInf? && b.minmax.z.NegInf? && b.minmax.w.NegInf?
  }

  /** graphene_box2d_is_infinity: both min lanes are -inf and both max
    * lanes are +inf. */
  predicate IsInfinity(b: Box2D)
  {
    b.minmax.x.NegInf? && b.minmax.y.NegInf? && b.minmax.z.PosInf? && b.minmax.w.PosInf?
  }

  /** The empty and infinite boxes are exactly the two sentinels, and a box
    * with finite lanes is neither. */
  lemma Sentinels(b: Box2D)
    ensures IsEmpty(b) <==> b == Empty
    ensures IsInfinity(b) <==> b == Infinite
    ensures SE.IsFinite(b.minmax) ==> !IsEmpty(b) && !IsInfinity(b)
    ensures !IsEmpty(Infinite) && !IsInfinity(Empty)
  {
  }

  // ----- initialisers -----

  function PointOr0(p: Option<Pt.Point>): Pt.Point
  {
    if p.Some? then p.value else Pt.Point(0.0, 0.0)
  }

  /** graphene_box2d_init: a NULL corner is the origin. */
  function Init(min: Option<Pt.Point>, max: Option<Pt.Point>): Box2D
  {
    var lo, hi := PointOr0(min), PointOr0(max);
    Box2D(Lanes(lo.x, lo.y, hi.x, hi.y))
  }

  /** graphene_box2d_init_from_vec2: a NULL vector is the zero vector and
    * only the x and y lanes of each are kept. */
  function InitFromVec2(min: Option<S.Simd4f>, max: Option<S.Simd4f>): Box2D
  {
    FromMinMax(SE.Lift(if min.Some? then min.value else S.Zero),
               SE.Lift(if max.Some? then max.value else S.Zero))
  }

  /** graphene_box2d_init_from_box copies the source. */
  function InitFromBox(src: Box2D): Box2D { src }

  /** graphene_box2d_init_from_rect: origin and origin + size, without
    * normalising the rectangle. */
  function InitFromRect(r: R.Rect): Box2D
  {
    Box2D(Lanes(r.origin.x, r.origin.y, r.origin.x + r.size.width, r.origin.y + r.size.height))
  }

  /** graphene_box2d_to_float: the four lanes in minmax order. */
  function ToFloat(b: Box2D): (f: seq<E.EReal>)
    ensures |f| == 4
  {
    [b.minmax.x, b.minmax.y, b.minmax.z, b.minmax.w]
  }

  /** graphene_box2d_get_minmax: the two corners as points. */
  function GetMinMax(b: Box2D): (EPoint, EPoint)
  {
    (EPoint(b.minmax.x, b.minmax.y), EPoint(b.minmax.z, b.minmax.w))
  }

  function Lift(p: Pt.Point): EPoint { EPoint(E.Fin(p.x), E.Fin(p.y)) }

  /** init stores min and max (the origin for a NULL corner) where
    * get_minmax and to_float find them, and init_from_vec2 agrees with it. */
  lemma InitReadBack(min: Option<Pt.Point>, max: Option<Pt.Point>)
    ensures GetMinMax(Init(min, max)) == (Lift(PointOr0(min)), Lift(PointOr0(max)))
    ensures ToFloat(Init(min, max)) ==
      [E.Fin(PointOr0(min).x), E.Fin(PointOr0(min).y), E.Fin(PointOr0(max).x), E.Fin(PointOr0(max).y)]
    ensures Init(None, None) == Zero
    ensures min.Some? && max.Some? ==>
      InitFromVec2(Some(S.Simd4(min.value.x, min.value.y, 0.0, 0.0)),
                   Some(S.Simd4(max.value.x, max.value.y, 0.0, 0.0))) == Init(min, max)
  {
  }

  /** graphene_box2d_to_rect: origin min and size max - min; a box with an
    * infinite lane has no rectangle of reals (None). */
  function ToRect(b: Box2D): Option<R.Rect>
  {
    if !SE.IsFinite(b.minmax) then None
    else
      var lo, hi := GetMinMax(b).0, GetMinMax(b).1;
      Some(R.MakeRect(lo.x.r, lo.y.r, hi.x.r - lo.x.r, hi.y.r - lo.y.r))
  }

  /** init_from_rect and to_rect are inverse. */
  lemma RectRoundTrip(r: R.Rect, b: Box2D)
    ensures ToRect(InitFromRect(r)) == Some(r)
    ensures ToRect(b).Some? <==> SE.IsFinite(b.minmax)
    ensures ToRect(b).Some? ==> InitFromRect(ToRect(b).value) == b
  {
  }

  // ----- expand -----

  /** graphene_box2d_expand_simd4f: lanewise min into the min corner and
    * lanewise max into the max corner. */
  function ExpandLanes(b: Box2D, v: SE.Simd4e): Box2D
  {
    FromMinMax(SE.Min(MinV(b), v), SE.Max(MaxV(b), v))
  }

  /** graphene_box2d_expand_vec2. */
  function ExpandVec2(b: Box2D, v: S.Simd4f): Box2D { ExpandLanes(b, SE.Lift(v)) }

  /** graphene_box2d_expand: the point as (x, y, 0, 0). */
  function Expand(b: Box2D, p: Pt.Point): Box2D
  {
    ExpandLanes(b, SE.Lift(S.Simd4(p.x, p.y, 0.0, 0.0)))
  }

  /** expand_vec2 only reads the x and y lanes of the vector. */
  lemma ExpandVec2IsExpand(b: Box2D, p: Pt.Point, z: real, w: real)
    ensures ExpandVec2(b, S.Simd4(p.x, p.y, z, w)) == Expand(b, p)
  {
  }

  /** graphene_box2d_expand_scalar: the min corner moves by -s and the max
    * corner by +s on both axes. */
  function ExpandScalar(b: Box2D, s: real): Box2D
  {
    FromMinMax(SE.Add(MinV(b), SE.Splat(E.Fin(-s))), SE.Add(MaxV(b), SE.Splat(E.Fin(s))))
  }

  // ----- scale_offset -----

  /** The scale vector (x, y, z, w) plus its zwxy shuffle. */
  function ScaleFull(scale: Option<S.Simd4f>): S.Simd4f
  {
    if scale.Some? then S.Add(scale.value, S.ShuffleZWXY(scale.value)) else S.Simd4(1.0, 1.0, 1.0, 1.0)
  }

  function OffsetFull(offset: Option<Pt.Point>): S.Simd4f
  {
    if offset.Some? then S.Simd4(offset.value.x, offset.value.y, offset.value.x, offset.value.y)
    else S.Zero
  }

  /** graphene_box2d_scale_offset: minmax * scale + offset, lane by lane,
    * with a NULL scale meaning 1 and a NULL offset 0. An infinite lane
    * scaled by 0 gives NaN, which the model reports as None. */
  function ScaleOffset(b: Box2D, scale: Option<S.Simd4f>, offset: Option<Pt.Point>): Option<Box2D>
  {
    var sf := SE.Lift(ScaleFull(scale));
    if !SE.MulDefined4(b.minmax, sf) then None
    else Some(Box2D(SE.Add(SE.Mul(b.minmax, sf), SE.Lift(OffsetFull(offset)))))
  }

  // ----- union and intersection -----

  /** graphene_box2d_union: lanewise min of the min corners and max of the
    * max corners. */
  function Union(a: Box2D, b: Box2D): Box2D
  {
    FromMinMax(SE.Min(MinV(a), MinV(b)), SE.Max(MaxV(a), MaxV(b)))
  }

  /** The boolean graphene_box2d_intersection returns, and the box it
    * writes through a non-NULL res. */
  datatype Overlap = Overlap(ok: bool, res: Box2D)

  /** graphene_box2d_intersection: the larger min corner and the smaller
    * max corner; when they are out of order on some lane the answer is
    * false and res is the empty box. */
  function Intersection(a: Box2D, b: Box2D): Overlap
  {
    var mn, mx := SE.Max(MinV(a), MinV(b)), SE.Min(MaxV(a), MaxV(b));
    if !SE.CmpLe(mn, mx) then Overlap(false, Empty) else Overlap(true, FromMinMax(mn, mx))
  }

  /** graphene_box2d_intersects_inline: the same comparison, on the corners
    * read back through get_minmax. */
  predicate IntersectsInline(a: Box2D, b: Box2D)
  {
    var (minA, maxA) := GetMinMax(a);
    var (minB, maxB) := GetMinMax(b);
    var mn := SE.Max(SE.Simd4e(minA.x, minA.y, Z, Z), SE.Simd4e(minB.x, minB.y, Z, Z));
    var mx := SE.Min(SE.Simd4e(maxA.x, maxA.y, Z, Z), SE.Simd4e(maxB.x, maxB.y, Z, Z));
    SE.CmpLe(mn, mx)
  }

  // ----- size, centre, vertices -----

  /** graphene_box2d_get_size: 0 for the empty box, +inf for the infinite
    * one, otherwise max - min (None where that is inf - inf). */
  function GetSize(b: Box2D): Option<EPoint>
  {
    if IsEmpty(b) then Some(EPoint(Z, Z))
    else if IsInfinity(b) then Some(EPoint(E.PosInf, E.PosInf))
    else if !SE.AddDefined4(MaxV(b), SE.Neg4(MinV(b))) then None
    else var d := SE.Sub(MaxV(b), MinV(b)); Some(EPoint(d.x, d.y))
  }

  /** graphene_box2d_get_width: |max.x - min.x|, without the sentinel
    * checks get_size makes (None where that is inf - inf). */
  function GetWidth(b: Box2D): Option<E.EReal>
  {
    if !E.AddDefined(b.minmax.z, E.Neg(b.minmax.x)) then None
    else Some(E.Magnitude(E.Sub(b.minmax.z, b.minmax.x)))
  }

  /** graphene_box2d_get_height: |max.y - min.y|. */
  function GetHeight(b: Box2D): Option<E.EReal>
  {
    if !E.AddDefined(b.minmax.w, E.Neg(b.minmax.y)) then None
    else Some(E.Magnitude(E.Sub(b.minmax.w, b.minmax.y)))
  }

  /** graphene_box2d_get_center: the origin for the empty and infinite
    * boxes, otherwise (min + max) * 0.5 (None where that is inf - inf). */
  function GetCenter(b: Box2D): Option<EPoint>
  {
    if IsEmpty(b) || IsInfinity(b) then Some(EPoint(Z, Z))
    else if !SE.AddDefined4(MinV(b), MaxV(b)) then None
    else var c := SE.Mul(SE.Add(MinV(b), MaxV(b)), SE.Splat(E.Fin(0.5))); Some(EPoint(c.x, c.y))
  }

  /** graphene_box2d_get_vertices: (min.x, min.y), (min.x, max.y),
    * (max.x, min.y), (max.x, max.y). */
  function GetVertices(b: Box2D): (vs: seq<EPoint>)
    ensures |vs| == 4
  {
    var (lo, hi) := GetMinMax(b);
    [EPoint(lo.x, lo.y), EPoint(lo.x, hi.y), EPoint(hi.x, lo.y), EPoint(hi.x, hi.y)]
  }

  // ----- containment and equality -----

  /** graphene_box2d_contains_point: never in the empty box, always in the
    * infinite one, otherwise min <= p <= max on both axes. */
  predicate ContainsPoint(b: Box2D, p: Pt.Point)
  {
    if IsEmpty(b) then false
    else if IsInfinity(b) then true
    else
      var v := SE.Lift(S.Simd4(p.x, p.y, 0.0, 0.0));
      SE.CmpGe(v, MinV(b)) && SE.CmpLe(v, MaxV(b))
  }

  /** graphene_box2d_contains_box: false when a is empty or b infinite, true
    * when a is infinite or b empty, otherwise b's corners inside a's. */
  predicate ContainsBox(a: Box2D, b: Box2D)
  {
    if IsEmpty(a) || IsInfinity(b) then false
    else if IsInfinity(a) || IsEmpty(b) then true
    else SE.CmpGe(MinV(b), MinV(a)) && SE.CmpLe(MaxV(b), MaxV(a))
  }

  /** graphene_box2d_contains_rect: the origin and origin + size (the
    * rectangle is not normalised) must both be contained. */
  predicate ContainsRect(b: Box2D, r: R.Rect)
  {
    if IsEmpty(b) then false
    else if IsInfinity(b) then true
    else ContainsPoint(b, r.origin) &&
         ContainsPoint(b, Pt.Point(r.origin.x + r.size.width, r.origin.y + r.size.height))
  }

  /** graphene_vec4_equal on lanes that may be infinite: exact lanewise
    * equality, or (only when every lane is finite) within
    * GRAPHENE_FLOAT_EPSILON; a difference with an infinite lane is never
    * below epsilon. */
  predicate LanesEqual(a: SE.Simd4e, b: SE.Simd4e)
  {
    a == b || (SE.IsFinite(a) && SE.IsFinite(b) && V.Vec4EqualValues(SE.Lower(a), SE.Lower(b)))
  }

  /** box_equal: two empty or two infinite boxes are equal, one sentinel
    * against anything else is not, otherwise vec4_equal. */
  predicate BoxEqual(a: Box2D, b: Box2D)
  {
    if IsEmpty(a) && IsEmpty(b) then true
    else if IsEmpty(a) || IsEmpty(b) then false
    else if IsInfinity(a) && IsInfinity(b) then true
    else if IsInfinity(a) || IsInfinity(b) then false
    else LanesEqual(a.minmax, b.minmax)
  }

  /** graphene_box2d_equal. */
  function Equal(p: PtrPair<Box2D>): bool { PointerEqual(p, BoxEqual) }

  // ----- properties -----

  /** Lane bounds of a box that is neither sentinel. */
  predicate InRange(b: Box2D, p: Pt.Point)
  {
    E.Le(b.minmax.x, E.Fin(p.x)) && E.Le(b.minmax.y, E.Fin(p.y)) &&
    E.Le(E.Fin(p.x), b.minmax.z) && E.Le(E.Fin(p.y), b.minmax.w)
  }

  lemma ContainsPointRange(b: Box2D, p: Pt.Point)
    requires !IsEmpty(b) && !IsInfinity(b)
    ensures ContainsPoint(b, p) <==> InRange(b, p)
  {
  }

  /** The expanded box contains the point and everything the box
    * contained, and its corners only move outwards; expanding the empty box
    * gives the box of that single point. */
  lemma ExpandContains(b: Box2D, p: Pt.Point, q: Pt.Point)
    ensures ContainsPoint(Expand(b, p), p)
    ensures ContainsPoint(b, q) ==> ContainsPoint(Expand(b, p), q)
    ensures SE.CmpLe(MinV(Expand(b, p)), MinV(b)) && SE.CmpLe(MaxV(b), MaxV(Expand(b, p)))
    ensures Expand(Empty, p) == Init(Some(p), Some(p))
  {
    var e := Expand(b, p);
    if !IsInfinity(e) {
      ContainsPointRange(e, p);
      ContainsPointRange(e, q);
      if ContainsPoint(b, q) && !IsInfinity(b) {
        ContainsPointRange(b, q);
        E.LeTrans(e.minmax.x, b.minmax.x, E.Fin(q.x));
        E.LeTrans(e.minmax.y, b.minmax.y, E.Fin(q.y));
        E.LeTrans(E.Fin(q.x), b.minmax.z, e.minmax.z);
        E.LeTrans(E.Fin(q.y), b.minmax.w, e.minmax.w);
      }
    }
  }

  /** On a box with finite lanes get_size is max - min. */
  lemma GetSizeFinite(b: Box2D)
    requires SE.IsFinite(b.minmax)
    ensures GetSize(b) == Some(EPoint(E.Fin(b.minmax.z.r - b.minmax.x.r), E.Fin(b.minmax.w.r - b.minmax.y.r)))
  {
    var lo, hi := MinV(b), MaxV(b);
    assert lo == SE.Lift(S.Simd4(b.minmax.x.r, b.minmax.y.r, 0.0, 0.0));
    assert hi == SE.Lift(S.Simd4(b.minmax.z.r, b.minmax.w.r, 0.0, 0.0));
    SE.LiftCommutes(S.Simd4(b.minmax.z.r, b.minmax.w.r, 0.0, 0.0), S.Simd4(b.minmax.x.r, b.minmax.y.r, 0.0, 0.0));
  }

  /** The expand tests: from the zero box, expanding by (0, 0) keeps size 0,
    * by (1, 1) gives size 1 and then by (-1, -1) size 2. */
  lemma ExpandExample(p0: Pt.Point, p1: Pt.Point, p2: Pt.Point)
    requires p0 == Pt.Point(0.0, 0.0) && p1 == Pt.Point(1.0, 1.0) && p2 == Pt.Point(-1.0, -1.0)
    ensures GetSize(Expand(Zero, p0)) == Some(EPoint(Z, Z))
    ensures GetSize(Expand(Expand(Zero, p0), p1)) == Some(EPoint(E.Fin(1.0), E.Fin(1.0)))
    ensures GetSize(Expand(Expand(Expand(Zero, p0), p1), p2)) == Some(EPoint(E.Fin(2.0), E.Fin(2.0)))
  {
    var b0 := Expand(Zero, p0);
    assert b0.minmax == Lanes(0.0, 0.0, 0.0, 0.0);
    GetSizeFinite(b0);
    var b1 := Expand(b0, p1);
    assert b1.minmax == Lanes(0.0, 0.0, 1.0, 1.0);
    GetSizeFinite(b1);
    var b2 := Expand(b1, p2);
    assert b2.minmax == Lanes(-1.0, -1.0, 1.0, 1.0);
    GetSizeFinite(b2);
  }

  /** Adding a finite amount to a lane moves a finite lane and keeps an
    * infinite one. */
  lemma AddFinLane(a: E.EReal, s: real)
    ensures E.AddDefined(a, E.Fin(s))
    ensures E.Add(a, E.Fin(s)) == (if a.Fin? then E.Fin(a.r + s) else a)
  {
  }

  /** expand_scalar as lane arithmetic: finite lanes move out by s,
    * infinite lanes stay. */
  lemma ExpandScalarLanes(b: Box2D, s: real)
    ensures ExpandScalar(b, s).minmax ==
      SE.Simd4e(E.Add(b.minmax.x, E.Fin(-s)), E.Add(b.minmax.y, E.Fin(-s)),
                E.Add(b.minmax.z, E.Fin(s)), E.Add(b.minmax.w, E.Fin(s)))
  {
  }

  /** On a finite box expand_scalar grows each side by 2s. */
  lemma ExpandScalarSize(b: Box2D, s: real)
    requires SE.IsFinite(b.minmax)
    ensures GetSize(ExpandScalar(b, s)) ==
      Some(EPoint(E.Fin(b.minmax.z.r - b.minmax.x.r + 2.0 * s), E.Fin(b.minmax.w.r - b.minmax.y.r + 2.0 * s)))
  {
    var m := b.minmax;
    ExpandScalarLanes(b, s);
    AddFinLane(m.x, -s);
    AddFinLane(m.y, -s);
    AddFinLane(m.z, s);
    AddFinLane(m.w, s);
    var e := ExpandScalar(b, s);
    assert e.minmax == Lanes(m.x.r - s, m.y.r - s, m.z.r + s, m.w.r + s);
    GetSizeFinite(e);
  }

  /** expand_scalar keeps both sentinels, and by 0 changes nothing. */
  lemma ExpandScalarSentinels(b: Box2D, s: real)
    ensures ExpandScalar(Empty, s) == Empty && ExpandScalar(Infinite, s) == Infinite
    ensures ExpandScalar(b, 0.0) == b
  {
    ExpandScalarLanes(b, 0.0);
    AddFinLane(b.minmax.x, -0.0);
    AddFinLane(b.minmax.y, -0.0);
    AddFinLane(b.minmax.z, 0.0);
    AddFinLane(b.minmax.w, 0.0);
  }

  /** A vec2 scale (x, y, 0, 0) becomes (x, y, x, y); with neither scale nor
    * offset the box is unchanged. */
  lemma ScaleOffsetIdentity(b: Box2D, x: real, y: real)
    ensures ScaleFull(Some(S.Simd4(x, y, 0.0, 0.0))) == S.Simd4(x, y, x, y)
    ensures ScaleOffset(b, None, None) == Some(b)
  {
  }

  lemma ScaleLe(u: real, v: real, s: real, o: real)
    requires u <= v && s > 0.0
    ensures u * s + o <= v * s + o
  {
    P.MulLeMonotone(u, v, s);
  }

  /** A positive scale and an offset map each point of a finite box to a
    * point of the scaled box. */
  lemma ScaleOffsetMapsPoints(b: Box2D, sx: real, sy: real, o: Pt.Point, p: Pt.Point)
    requires SE.IsFinite(b.minmax) && sx > 0.0 && sy > 0.0
    requires ContainsPoint(b, p)
    ensures ScaleOffset(b, Some(S.Simd4(sx, sy, 0.0, 0.0)), Some(o)).Some?
    ensures ContainsPoint(ScaleOffset(b, Some(S.Simd4(sx, sy, 0.0, 0.0)), Some(o)).value,
                          Pt.Point(p.x * sx + o.x, p.y * sy + o.y))
  {
    var m := b.minmax;
    ContainsPointRange(b, p);
    ScaleLe(m.x.r, p.x, sx, o.x);
    ScaleLe(p.x, m.z.r, sx, o.x);
    ScaleLe(m.y.r, p.y, sy, o.y);
    ScaleLe(p.y, m.w.r, sy, o.y);
    var r := ScaleOffset(b, Some(S.Simd4(sx, sy, 0.0, 0.0)), Some(o)).value;
    assert r.minmax == Lanes(m.x.r * sx + o.x, m.y.r * sy + o.y, m.z.r * sx + o.x, m.w.r * sy + o.y);
    ContainsPointRange(r, Pt.Point(p.x * sx + o.x, p.y * sy + o.y));
  }

  /** The union tests, and the empty box as a unit of union. */
  lemma UnionExample(b: Box2D)
    ensures Union(Zero, Zero) == Zero && Union(Zero, One) == One
    ensures Union(MinusOne, One) == OneMinusOne
    ensures Union(Empty, b) == b && Union(b, Empty) == b
  {
  }

  /** Union is commutative and contains every point of either box. */
  lemma UnionContains(a: Box2D, b: Box2D, p: Pt.Point)
    ensures Union(a, b) == Union(b, a)
    ensures ContainsPoint(a, p) ==> ContainsPoint(Union(a, b), p)
  {
    var u := Union(a, b);
    if ContainsPoint(a, p) && !IsInfinity(u) {
      assert !IsInfinity(a);
      ContainsPointRange(a, p);
      ContainsPointRange(u, p);
      E.LeTrans(u.minmax.x, a.minmax.x, E.Fin(p.x));
      E.LeTrans(u.minmax.y, a.minmax.y, E.Fin(p.y));
      E.LeTrans(E.Fin(p.x), a.minmax.z, u.minmax.z);
      E.LeTrans(E.Fin(p.y), a.minmax.w, u.minmax.w);
    }
  }

  /** intersects_inline gives the boolean intersection returns; it is
    * symmetric, and the empty box intersects nothing. */
  lemma IntersectsInlineAgrees(a: Box2D, b: Box2D)
    ensures IntersectsInline(a, b) == Intersection(a, b).ok
    ensures IntersectsInline(a, b) == IntersectsInline(b, a)
    ensures !IntersectsInline(Empty, b) && !IntersectsInline(b, Empty)
  {
  }

  /** Two boxes with finite lanes intersect exactly when some point lies in
    * both, and then the result holds exactly the common points. */
  lemma IntersectionCommonPoint(a: Box2D, b: Box2D)
    requires SE.IsFinite(a.minmax) && SE.IsFinite(b.minmax)
    ensures Intersection(a, b).ok <==> exists p :: ContainsPoint(a, p) && ContainsPoint(b, p)
  {
    var o := Intersection(a, b);
    if o.ok {
      var p := Pt.Point(P.Max(a.minmax.x.r, b.minmax.x.r), P.Max(a.minmax.y.r, b.minmax.y.r));
      ContainsPointRange(a, p);
      ContainsPointRange(b, p);
      assert ContainsPoint(a, p) && ContainsPoint(b, p);
    } else {
      forall p | ContainsPoint(a, p)
        ensures !ContainsPoint(b, p)
      {
        ContainsPointRange(a, p);
        ContainsPointRange(b, p);
      }
    }
  }

  /** The intersection holds exactly the points common to both boxes. */
  lemma IntersectionExactPoints(a: Box2D, b: Box2D, p: Pt.Point)
    requires SE.IsFinite(a.minmax) && SE.IsFinite(b.minmax)
    requires Intersection(a, b).ok
    ensures ContainsPoint(Intersection(a, b).res, p) <==> ContainsPoint(a, p) && ContainsPoint(b, p)
  {
    var r := Intersection(a, b).res;
    assert SE.IsFinite(r.minmax);
    ContainsPointRange(a, p);
    ContainsPointRange(b, p);
    ContainsPointRange(r, p);
  }

  /** The intersection tests: empty with zero is empty, (-1, 1) with one is
    * one, the infinite box with one is one, separated boxes do not
    * intersect and touching ones do. */
  lemma IntersectionExample()
    ensures Intersection(Empty, Zero) == Overlap(false, Empty)
    ensures Intersection(OneMinusOne, One) == Overlap(true, One)
    ensures Intersection(Infinite, One) == Overlap(true, One)
    ensures !Intersection(Init(Some(Pt.Point(5.0, 0.0)), Some(Pt.Point(6.0, 1.0))),
                          Init(Some(Pt.Point(7.0, 0.0)), Some(Pt.Point(8.0, 1.0)))).ok
    ensures !Intersection(Init(Some(Pt.Point(0.0, 5.0)), Some(Pt.Point(1.0, 6.0))),
                          Init(Some(Pt.Point(0.0, 7.0)), Some(Pt.Point(1.0, 8.0)))).ok
    ensures Intersection(One, Init(Some(Pt.Point(1.0, 0.0)), Some(Pt.Point(2.0, 1.0)))).ok
  {
  }

  /** A box with finite lanes and min <= max on both axes. */
  predicate Ordered(b: Box2D)
  {
    SE.IsFinite(b.minmax) && b.minmax.x.r <= b.minmax.z.r && b.minmax.y.r <= b.minmax.w.r
  }

  /** The sentinels have size 0 and +inf and centre 0; an ordered box has a
    * non-negative size, and its centre is the midpoint of its corners. */
  lemma SizeAndCenter(b: Box2D)
    ensures GetSize(Empty) == Some(EPoint(Z, Z)) && GetSize(Infinite) == Some(EPoint(E.PosInf, E.PosInf))
    ensures GetCenter(Empty) == Some(EPoint(Z, Z)) && GetCenter(Infinite) == Some(EPoint(Z, Z))
    ensures Ordered(b) ==> GetSize(b).Some? && E.Le(Z, GetSize(b).value.x) && E.Le(Z, GetSize(b).value.y)
    ensures SE.IsFinite(b.minmax) ==>
      GetCenter(b) == Some(EPoint(E.Fin((b.minmax.x.r + b.minmax.z.r) / 2.0), E.Fin((b.minmax.y.r + b.minmax.w.r) / 2.0)))
  {
    if SE.IsFinite(b.minmax) {
      GetSizeFinite(b);
    }
  }

  /** Width and height are never negative and on an ordered box are the
    * lanes of get_size; for the empty box, whose size get_size reports as
    * 0 by 0, they are +inf, and for the infinite box +inf as well. */
  lemma WidthHeightSize(b: Box2D)
    ensures GetWidth(b).Some? ==> E.Le(Z, GetWidth(b).value)
    ensures GetHeight(b).Some? ==> E.Le(Z, GetHeight(b).value)
    ensures Ordered(b) ==> GetSize(b) == Some(EPoint(GetWidth(b).value, GetHeight(b).value))
    ensures GetWidth(Empty) == Some(E.PosInf) && GetHeight(Empty) == Some(E.PosInf)
    ensures GetWidth(Infinite) == Some(E.PosInf) && GetHeight(Infinite) == Some(E.PosInf)
  {
    if Ordered(b) {
      GetSizeFinite(b);
    }
  }

  /** An ordered box contains its centre and its four vertices. */
  lemma ContainsCenterAndVertices(b: Box2D, i: nat)
    requires Ordered(b) && i < 4
    ensures ContainsPoint(b, Pt.Point((b.minmax.x.r + b.minmax.z.r) / 2.0, (b.minmax.y.r + b.minmax.w.r) / 2.0))
    ensures GetVertices(b)[i].x.Fin? && GetVertices(b)[i].y.Fin?
    ensures ContainsPoint(b, Pt.Point(GetVertices(b)[i].x.r, GetVertices(b)[i].y.r))
  {
    ContainsPointRange(b, Pt.Point((b.minmax.x.r + b.minmax.z.r) / 2.0, (b.minmax.y.r + b.minmax.w.r) / 2.0));
    ContainsPointRange(b, Pt.Point(GetVertices(b)[i].x.r, GetVertices(b)[i].y.r));
  }

  /** The contains_point test: (-1, -1)-(1, 1) does not contain (-2, 2). */
  lemma ContainsPointExample()
    ensures ContainsPoint(OneMinusOne, Pt.Point(0.0, 0.0))
    ensures !ContainsPoint(OneMinusOne, Pt.Point(-2.0, 2.0))
    ensures !ContainsPoint(Empty, Pt.Point(0.0, 0.0)) && ContainsPoint(Infinite, Pt.Point(-2.0, 2.0))
  {
  }

  /** When contains_box holds, every point of b is a point of a; and a
    * finite box that holds both corners of an ordered b contains b. */
  lemma ContainsBoxSound(a: Box2D, b: Box2D, p: Pt.Point)
    requires ContainsBox(a, b) && ContainsPoint(b, p)
    ensures ContainsPoint(a, p)
  {
    if !IsInfinity(a) {
      ContainsPointRange(a, p);
      ContainsPointRange(b, p);
      E.LeTrans(a.minmax.x, b.minmax.x, E.Fin(p.x));
      E.LeTrans(a.minmax.y, b.minmax.y, E.Fin(p.y));
      E.LeTrans(E.Fin(p.x), b.minmax.z, a.minmax.z);
      E.LeTrans(E.Fin(p.y), b.minmax.w, a.minmax.w);
    }
  }

  lemma ContainsBoxComplete(a: Box2D, b: Box2D)
    requires SE.IsFinite(a.minmax) && Ordered(b)
    requires ContainsPoint(a, Pt.Point(b.minmax.x.r, b.minmax.y.r))
    requires ContainsPoint(a, Pt.Point(b.minmax.z.r, b.minmax.w.r))
    ensures ContainsBox(a, b)
  {
    ContainsPointRange(a, Pt.Point(b.minmax.x.r, b.minmax.y.r));
    ContainsPointRange(a, Pt.Point(b.minmax.z.r, b.minmax.w.r));
  }

  /** The contains_box tests: one does not contain minus_one, (-1, 1)
    * contains one, the infinite box contains one and the empty box does
    * not. The infinite box is not reported to contain itself, because the
    * infinite-b check comes first. */
  lemma ContainsBoxExample()
    ensures !ContainsBox(One, MinusOne) && ContainsBox(OneMinusOne, One)
    ensures ContainsBox(Infinite, One) && !ContainsBox(Empty, One)
    ensures !ContainsBox(Infinite, Infinite) && !ContainsBox(Empty, Empty)
  {
  }

  /** When contains_rect holds, every point of the rectangle, normalised or
    * not, is in the box. */
  lemma ContainsRectSound(b: Box2D, r: R.Rect, q: Pt.Point)
    requires ContainsRect(b, r) && R.ContainsPoint(r, q)
    ensures ContainsPoint(b, q)
  {
    if !IsInfinity(b) {
      R.NormalizeSpan(r);
      var c := Pt.Point(r.origin.x + r.size.width, r.origin.y + r.size.height);
      ContainsPointRange(b, r.origin);
      ContainsPointRange(b, c);
      ContainsPointRange(b, q);
    }
  }

  /** Box equality: every box equals itself, the relation is symmetric, and
    * the two sentinels differ from each other and from the zero box. */
  lemma EqualProperties(a: Box2D, b: Box2D)
    ensures BoxEqual(a, a) && Equal(Distinct(a, a))
    ensures BoxEqual(a, b) <==> BoxEqual(b, a)
    ensures BoxEqual(Empty, Empty) && BoxEqual(Infinite, Infinite)
    ensures !BoxEqual(Empty, Infinite) && !BoxEqual(Empty, Zero) && !BoxEqual(Infinite, Zero)
  {
    if SE.IsFinite(a.minmax) && SE.IsFinite(b.minmax) {
      V.Vec4NearSymmetric(SE.Lower(a.minmax), SE.Lower(b.minmax), P.FloatEpsilon);
    }
  }

  // ----- init_from_points and init_from_vectors -----

  /** The box init_from_points builds: the empty box expanded by each point
    * in turn. */
  function PointsBox(pts: seq<Pt.Point>): Box2D
  {
    if |pts| == 0 then Empty else Expand(PointsBox(pts[..|pts| - 1]), pts[|pts| - 1])
  }

  /** graphene_box2d_init_from_points: start from the empty box and expand
    * by each point, turned into a vec2. */
  method InitFromPoints(points: seq<Pt.Point>) returns (box: Box2D)
    ensures box == PointsBox(points)
  {
    box := InitFromBox(Empty);
    var i := 0;
    while i < |points|
      invariant 0 <= i <= |points|
      invariant box == PointsBox(points[..i])
    {
      assert points[..i + 1][..i] == points[..i];
      box := ExpandVec2(box, S.Simd4(points[i].x, points[i].y, 0.0, 0.0));
      i := i + 1;
    }
    assert points[..|points|] == points;
  }

  /** The points a sequence of vec2 values stands for. */
  function PointsOf(vs: seq<S.Simd4f>): (pts: seq<Pt.Point>)
    ensures |pts| == |vs|
    ensures forall i :: 0 <= i < |vs| ==> pts[i] == Pt.Point(vs[i].x, vs[i].y)
  {
    seq(|vs|, i requires 0 <= i < |vs| => Pt.Point(vs[i].x, vs[i].y))
  }

  /** graphene_box2d_init_from_vectors: the same loop over vectors. */
  method InitFromVectors(vectors: seq<S.Simd4f>) returns (box: Box2D)
    ensures box == PointsBox(PointsOf(vectors))
  {
    box := InitFromBox(Empty);
    var i := 0;
    while i < |vectors|
      invariant 0 <= i <= |vectors|
      invariant box == PointsBox(PointsOf(vectors)[..i])
    {
      assert PointsOf(vectors)[..i + 1][..i] == PointsOf(vectors)[..i];
      ExpandVec2IsExpand(box, PointsOf(vectors)[i], vectors[i].z, vectors[i].w);
      box := ExpandVec2(box, vectors[i]);
      i := i + 1;
    }
    assert PointsOf(vectors)[..|vectors|] == PointsOf(vectors);
  }

  /** No points give the empty box; otherwise the box has finite lanes and
    * contains every point. */
  lemma {:induction false} PointsBoxContains(pts: seq<Pt.Point>)
    ensures |pts| == 0 ==> PointsBox(pts) == Empty
    ensures |pts| > 0 ==> SE.IsFinite(PointsBox(pts).minmax)
    ensures forall i :: 0 <= i < |pts| ==> ContainsPoint(PointsBox(pts), pts[i])
  {
    if |pts| > 0 {
      var init, last := pts[..|pts| - 1], pts[|pts| - 1];
      PointsBoxContains(init);
      forall i | 0 <= i < |pts|
        ensures ContainsPoint(PointsBox(pts), pts[i])
      {
        ExpandContains(PointsBox(init), last, pts[i]);
        if i < |pts| - 1 {
          assert pts[i] == init[i];
        }
      }
    }
  }

  /** Each lane of a non-empty points box is a coordinate of one of the
    * points: the box is the componentwise extremes. */
  lemma {:induction false} PointsBoxAttained(pts: seq<Pt.Point>)
    requires |pts| > 0
    ensures exists i :: 0 <= i < |pts| && PointsBox(pts).minmax.x == E.Fin(pts[i].x)
    ensures exists i :: 0 <= i < |pts| && PointsBox(pts).minmax.y == E.Fin(pts[i].y)
    ensures exists i :: 0 <= i < |pts| && PointsBox(pts).minmax.z == E.Fin(pts[i].x)
    ensures exists i :: 0 <= i < |pts| && PointsBox(pts).minmax.w == E.Fin(pts[i].y)
  {
    var n := |pts| - 1;
    var init, last := pts[..n], pts[n];
    var b, r := PointsBox(init), PointsBox(pts);
    if n == 0 {
      assert r.minmax == Lanes(last.x, last.y, last.x, last.y);
    } else {
      PointsBoxAttained(init);
      var ix :| 0 <= ix < n && b.minmax.x == E.Fin(init[ix].x);
      var iy :| 0 <= iy < n && b.minmax.y == E.Fin(init[iy].y);
      var iz :| 0 <= iz < n && b.minmax.z == E.Fin(init[iz].x);
      var iw :| 0 <= iw < n && b.minmax.w == E.Fin(init[iw].y);
      assert r.minmax.x == E.Fin(pts[ix].x) || r.minmax.x == E.Fin(pts[n].x);
      assert r.minmax.y == E.Fin(pts[iy].y) || r.minmax.y == E.Fin(pts[n].y);
      assert r.minmax.z == E.Fin(pts[iz].x) || r.minmax.z == E.Fin(pts[n].x);
      assert r.minmax.w == E.Fin(pts[iw].y) || r.minmax.w == E.Fin(pts[n].y);
    }
  }
}
