// graphene_rect_t: an origin and a size that may be negative. The set
// operations and predicates work on normalised copies and are functions;
// normalize, offset, inset and round_to_pixel update the struct in place and
// are methods of RectStruct.

module Rects {

  import opened Common
  import P = Private
  import opened Points
  import opened Sizes

  datatype Rect = Rect(origin: Point, size: Size)

  function MakeRect(x: real, y: real, w: real, h: real): Rect { Rect(Point(x, y), Size(w, h)) }

  /** The rectangle's right and bottom edges as stored. */
  function Right(r: Rect): real { r.origin.x + r.size.width }

  function Bottom(r: Rect): real { r.origin.y + r.size.height }

  predicate IsNormal(r: Rect) { r.size.width >= 0.0 && r.size.height >= 0.0 }

  /** graphene_rect_normalize_internal: a negative dimension moves the origin
    * back by its magnitude and becomes positive. */
  function Normalize(r: Rect): (n: Rect)
    ensures IsNormal(n)
    ensures IsNormal(r) ==> n == r
  {
    if r.size.width >= 0.0 && r.size.height >= 0.0 then r
    else
      var x := if r.size.width < 0.0 then r.origin.x - Abs(r.size.width) else r.origin.x;
      var y := if r.size.height < 0.0 then r.origin.y - Abs(r.size.height) else r.origin.y;
      MakeRect(x, y, Abs(r.size.width), Abs(r.size.height))
  }

  /** Normalisation keeps the covered span on both axes and is idempotent. */
  lemma NormalizeSpan(r: Rect)
    ensures Normalize(r).origin.x == P.Min(r.origin.x, Right(r))
    ensures Right(Normalize(r)) == P.Max(r.origin.x, Right(r))
    ensures Normalize(r).origin.y == P.Min(r.origin.y, Bottom(r))
    ensures Bottom(Normalize(r)) == P.Max(r.origin.y, Bottom(r))
    ensures Normalize(Normalize(r)) == Normalize(r)
  {
  }

  /** The normalisation test: (10, 10, -10, -10) becomes (0, 0, 10, 10). */
  lemma NormalizeExample()
    ensures Normalize(MakeRect(10.0, 10.0, -10.0, -10.0)) == MakeRect(0.0, 0.0, 10.0, 10.0)
  {
  }

  /** graphene_rect_equal: point_equal of the normalised origins and
    * size_equal of the normalised sizes, both as distinct objects. */
  predicate Equal(a: Rect, b: Rect)
  {
    var na, nb := Normalize(a), Normalize(b);
    Points.Equal(Distinct(na.origin, nb.origin)) && Sizes.Equal(Distinct(na.size, nb.size))
  }

  /** Equality is reflexive, symmetric and blind to normalisation; it holds
    * only when all four normalised fields agree within the float epsilon. */
  lemma EqualProperties(a: Rect, b: Rect)
    ensures Equal(a, a) && Equal(a, Normalize(a))
    ensures Equal(a, b) <==> Equal(b, a)
    ensures Equal(a, b) ==>
      Abs(Normalize(a).origin.x - Normalize(b).origin.x) < P.FloatEpsilon &&
      Abs(Normalize(a).origin.y - Normalize(b).origin.y) < P.FloatEpsilon &&
      Abs(Normalize(a).size.width - Normalize(b).size.width) < P.FloatEpsilon &&
      Abs(Normalize(a).size.height - Normalize(b).size.height) < P.FloatEpsilon
  {
    var na, nb := Normalize(a), Normalize(b);
    Points.NearProperties(na.origin, nb.origin, P.FloatEpsilon);
    Sizes.EqualProperties(na.size, nb.size);
  }

  /** graphene_rect_contains_point: inclusive on the normalised rectangle. */
  predicate ContainsPoint(r: Rect, p: Point)
  {
    var n := Normalize(r);
    p.x >= n.origin.x && p.y >= n.origin.y && p.x <= Right(n) && p.y <= Bottom(n)
  }

  /** The containment test: the corners and the centre of (0, 0, 10, 10) are
    * inside, (-1, -1) and (11, 11) are not. */
  lemma ContainsPointExample()
    ensures var r := MakeRect(0.0, 0.0, 10.0, 10.0);
      ContainsPoint(r, Point(0.0, 0.0)) && ContainsPoint(r, Point(10.0, 0.0)) &&
      ContainsPoint(r, Point(10.0, 10.0)) && ContainsPoint(r, Point(0.0, 10.0)) &&
      ContainsPoint(r, Point(5.0, 5.0)) &&
      !ContainsPoint(r, Point(-1.0, -1.0)) && !ContainsPoint(r, Point(11.0, 11.0))
  {
  }

  /** graphene_rect_get_top_left and the other corner getters: corners of
    * the normalised rectangle. */
  function TopLeft(r: Rect): Point { Normalize(r).origin }

  function TopRight(r: Rect): Point { Point(Right(Normalize(r)), Normalize(r).origin.y) }

  function BottomRight(r: Rect): Point { Point(Right(Normalize(r)), Bottom(Normalize(r))) }

  function BottomLeft(r: Rect): Point { Point(Normalize(r).origin.x, Bottom(Normalize(r))) }

  /** Every corner lies in the rectangle. */
  lemma CornersContained(r: Rect)
    ensures ContainsPoint(r, TopLeft(r)) && ContainsPoint(r, TopRight(r))
    ensures ContainsPoint(r, BottomRight(r)) && ContainsPoint(r, BottomLeft(r))
  {
  }

  /** graphene_rect_get_center: the normalised origin plus half the size. */
  function GetCenter(r: Rect): Point
  {
    var n := Normalize(r);
    Point(n.origin.x + n.size.width / 2.0, n.origin.y + n.size.height / 2.0)
  }

  /** The centre is the midpoint of opposite corners, lies in the rectangle,
    * and does not depend on the sign of the stored size. */
  lemma CenterMidpoint(r: Rect)
    ensures GetCenter(r).x == (TopLeft(r).x + BottomRight(r).x) / 2.0
    ensures GetCenter(r).y == (TopLeft(r).y + BottomRight(r).y) / 2.0
    ensures GetCenter(r) == GetCenter(Normalize(r))
    ensures ContainsPoint(r, GetCenter(r))
  {
  }

  // ----- union -----

  /** graphene_rect_union as written: the smaller origins and the larger of
    * the two widths and of the two heights. The origin is that of the
    * bounding rectangle; only the size can fall short of it. */
  function UnionAsWritten(a: Rect, b: Rect): (u: Rect)
    ensures IsNormal(u) && u.origin == Union(a, b).origin
    ensures u.size.width >= Normalize(a).size.width && u.size.width >= Normalize(b).size.width
    ensures u.size.height >= Normalize(a).size.height && u.size.height >= Normalize(b).size.height
  {
    var ra, rb := Normalize(a), Normalize(b);
    MakeRect(P.Min(ra.origin.x, rb.origin.x), P.Min(ra.origin.y, rb.origin.y),
             P.Max(ra.size.width, rb.size.width), P.Max(ra.size.height, rb.size.height))
  }

  /** The union test: (0, 0, 10, 10) and (5, 5, 15, 15) give 15x15, which
    * leaves out the far corner (20, 20) of the second rectangle. */
  lemma UnionAsWrittenCounterexample()
    ensures var a, b := MakeRect(0.0, 0.0, 10.0, 10.0), MakeRect(5.0, 5.0, 15.0, 15.0);
      UnionAsWritten(a, b) == MakeRect(0.0, 0.0, 15.0, 15.0) &&
      ContainsPoint(b, Point(20.0, 20.0)) && !ContainsPoint(UnionAsWritten(a, b), Point(20.0, 20.0))
  {
  }

  /** The bounding rectangle the union is documented and tested to be. */
  function Union(a: Rect, b: Rect): (u: Rect)
    ensures IsNormal(u)
  {
    var ra, rb := Normalize(a), Normalize(b);
    var x, y := P.Min(ra.origin.x, rb.origin.x), P.Min(ra.origin.y, rb.origin.y);
    MakeRect(x, y, P.Max(Right(ra), Right(rb)) - x, P.Max(Bottom(ra), Bottom(rb)) - y)
  }

  /** The corrected union contains every point of either rectangle, and
    * its edges are edges of the operands, so no smaller rectangle does. */
  lemma UnionBounds(a: Rect, b: Rect, p: Point)
    ensures ContainsPoint(a, p) ==> ContainsPoint(Union(a, b), p)
    ensures ContainsPoint(b, p) ==> ContainsPoint(Union(a, b), p)
    ensures Union(a, b).origin.x == P.Min(Normalize(a).origin.x, Normalize(b).origin.x)
    ensures Right(Union(a, b)) == P.Max(Right(Normalize(a)), Right(Normalize(b)))
    ensures Union(a, b).origin.y == P.Min(Normalize(a).origin.y, Normalize(b).origin.y)
    ensures Bottom(Union(a, b)) == P.Max(Bottom(Normalize(a)), Bottom(Normalize(b)))
  {
  }

  lemma UnionExample()
    ensures Union(MakeRect(0.0, 0.0, 10.0, 10.0), MakeRect(5.0, 5.0, 15.0, 15.0)) == MakeRect(0.0, 0.0, 20.0, 20.0)
  {
  }

  // ----- containment of rectangles -----

  /** graphene_rect_contains_rect as written: a equals union(a, b). With the
    * union as written this checks b's origin and b's size against a's, up
    * to the float epsilon, but not b's far edges. */
  predicate ContainsRectAsWritten(a: Rect, b: Rect)
    ensures ContainsRectAsWritten(a, b) ==>
      Normalize(a).origin.x - P.FloatEpsilon < Normalize(b).origin.x &&
      Normalize(a).origin.y - P.FloatEpsilon < Normalize(b).origin.y &&
      Normalize(b).size.width < Normalize(a).size.width + P.FloatEpsilon &&
      Normalize(b).size.height < Normalize(a).size.height + P.FloatEpsilon
  {
    EqualProperties(a, UnionAsWritten(a, b));
    Equal(a, UnionAsWritten(a, b))
  }

  /** With the as-written union, (0, 0, 10, 10) claims to contain
    * (5, 5, 10, 10) though the corner (15, 15) sticks out. */
  lemma ContainsRectAsWrittenCounterexample()
    ensures var a, b := MakeRect(0.0, 0.0, 10.0, 10.0), MakeRect(5.0, 5.0, 10.0, 10.0);
      ContainsRectAsWritten(a, b) && ContainsPoint(b, Point(15.0, 15.0)) && !ContainsPoint(a, Point(15.0, 15.0))
  {
    var a, b := MakeRect(0.0, 0.0, 10.0, 10.0), MakeRect(5.0, 5.0, 10.0, 10.0);
    assert UnionAsWritten(a, b) == a;
    EqualProperties(a, a);
  }

  /** contains_rect on the corrected union. */
  predicate ContainsRect(a: Rect, b: Rect) { Equal(a, Union(a, b)) }

  /** A rectangle contains every rectangle inside it (itself included); and
    * when contains_rect holds, b lies inside a widened by the float epsilon
    * on the left and twice that on the right. */
  lemma ContainsRectSound(a: Rect, b: Rect)
    ensures ContainsRect(a, a)
    ensures (var na, nb := Normalize(a), Normalize(b);
             na.origin.x <= nb.origin.x && na.origin.y <= nb.origin.y &&
             Right(nb) <= Right(na) && Bottom(nb) <= Bottom(na)) ==> ContainsRect(a, b)
    ensures ContainsRect(a, b) ==>
      Normalize(a).origin.x - P.FloatEpsilon < Normalize(b).origin.x &&
      Right(Normalize(b)) < Right(Normalize(a)) + 2.0 * P.FloatEpsilon
  {
    var na, nb := Normalize(a), Normalize(b);
    var u := Union(a, b);
    if na.origin.x <= nb.origin.x && na.origin.y <= nb.origin.y &&
       Right(nb) <= Right(na) && Bottom(nb) <= Bottom(na) {
      assert u == na;
      EqualProperties(a, a);
    }
    if ContainsRect(a, b) {
      EqualProperties(a, u);
      assert Normalize(u) == u;
    }
    assert Union(a, a) == na;
    EqualProperties(a, a);
  }

  /** The containment test: (0, 0, 10, 10) contains (1, 1, 9, 9) but not
    * the other way round. */
  lemma ContainsRectExample()
    ensures ContainsRect(MakeRect(0.0, 0.0, 10.0, 10.0), MakeRect(1.0, 1.0, 9.0, 9.0))
    ensures !ContainsRect(MakeRect(1.0, 1.0, 9.0, 9.0), MakeRect(0.0, 0.0, 10.0, 10.0))
  {
    ContainsRectSound(MakeRect(0.0, 0.0, 10.0, 10.0), MakeRect(1.0, 1.0, 9.0, 9.0));
  }

  // ----- intersection -----

  /** The outcome of graphene_rect_intersection: whether the rectangles
    * overlap, and the rectangle stored into a non-NULL res. */
  datatype Overlap = Overlap(ok: bool, res: Rect)

  const ZeroRect: Rect := MakeRect(0.0, 0.0, 0.0, 0.0)

  /** graphene_rect_intersection as written: the bottom edge of b is taken
    * from b's x origin. */
  function IntersectionAsWritten(a: Rect, b: Rect): (o: Overlap)
    ensures !o.ok ==> o.res == ZeroRect
    ensures Normalize(b).origin.x == Normalize(b).origin.y ==> o == Intersection(a, b)
  {
    var ra, rb := Normalize(a), Normalize(b);
    var x1, y1 := P.Max(ra.origin.x, rb.origin.x), P.Max(ra.origin.y, rb.origin.y);
    var x2 := P.Min(Right(ra), Right(rb));
    var y2 := P.Min(Bottom(ra), rb.origin.x + rb.size.height);
    if x1 >= x2 || y1 >= y2 then Overlap(false, Normalize(ZeroRect))
    else Overlap(true, Normalize(MakeRect(x1, y1, x2 - x1, y2 - y1)))
  }

  /** (0, 0, 100, 100) and (50, 0, 10, 10) overlap in (50, 0, 10, 10), but
    * the result as written is 60 high and holds (55, 30), outside b. */
  lemma IntersectionAsWrittenCounterexample()
    ensures var a, b := MakeRect(0.0, 0.0, 100.0, 100.0), MakeRect(50.0, 0.0, 10.0, 10.0);
      IntersectionAsWritten(a, b) == Overlap(true, MakeRect(50.0, 0.0, 10.0, 60.0)) &&
      ContainsPoint(IntersectionAsWritten(a, b).res, Point(55.0, 30.0)) && !ContainsPoint(b, Point(55.0, 30.0))
  {
  }

  /** The intersection with b's bottom edge taken from its y origin. */
  function Intersection(a: Rect, b: Rect): (o: Overlap)
    ensures !o.ok ==> o.res == ZeroRect
  {
    var ra, rb := Normalize(a), Normalize(b);
    var x1, y1 := P.Max(ra.origin.x, rb.origin.x), P.Max(ra.origin.y, rb.origin.y);
    var x2, y2 := P.Min(Right(ra), Right(rb)), P.Min(Bottom(ra), Bottom(rb));
    if x1 >= x2 || y1 >= y2 then Overlap(false, Normalize(ZeroRect))
    else Overlap(true, Normalize(MakeRect(x1, y1, x2 - x1, y2 - y1)))
  }

  /** A point strictly inside the normalised rectangle. */
  predicate Interior(r: Rect, p: Point)
  {
    var n := Normalize(r);
    n.origin.x < p.x < Right(n) && n.origin.y < p.y < Bottom(n)
  }

  /** On overlap the result holds exactly the points both rectangles hold
    * and has positive size; otherwise no point is inside both. */
  lemma IntersectionExact(a: Rect, b: Rect, p: Point)
    ensures Intersection(a, b).ok ==>
      (ContainsPoint(Intersection(a, b).res, p) <==> ContainsPoint(a, p) && ContainsPoint(b, p))
    ensures Intersection(a, b).ok ==>
      Intersection(a, b).res.size.width > 0.0 && Intersection(a, b).res.size.height > 0.0
    ensures !Intersection(a, b).ok ==> !(Interior(a, p) && Interior(b, p))
  {
  }

  /** The intersection test: (0, 0, 10, 10) and (5, 5, 15, 15) overlap in
    * (5, 5, 5, 5), which does not overlap (11, 11, 2, 2). */
  lemma IntersectionExample()
    ensures Intersection(MakeRect(0.0, 0.0, 10.0, 10.0), MakeRect(5.0, 5.0, 15.0, 15.0)) ==
      Overlap(true, MakeRect(5.0, 5.0, 5.0, 5.0))
    ensures Intersection(MakeRect(5.0, 5.0, 5.0, 5.0), MakeRect(11.0, 11.0, 2.0, 2.0)) == Overlap(false, ZeroRect)
  {
  }

  /** Where b's x and y origins agree the two versions coincide. */
  lemma IntersectionAgrees(a: Rect, b: Rect)
    requires Normalize(b).origin.x == Normalize(b).origin.y
    ensures IntersectionAsWritten(a, b) == Intersection(a, b)
  {
  }

  // ----- in-place updates -----

  /** graphene_rect_offset: normalise, then move the origin. */
  function OffsetRect(r: Rect, dx: real, dy: real): Rect
  {
    var n := Normalize(r);
    MakeRect(n.origin.x + dx, n.origin.y + dy, n.size.width, n.size.height)
  }

  /** Offsetting moves every contained point with the rectangle. */
  lemma OffsetMoves(r: Rect, dx: real, dy: real, p: Point)
    ensures ContainsPoint(OffsetRect(r, dx, dy), Point(p.x + dx, p.y + dy)) <==> ContainsPoint(r, p)
    ensures IsNormal(OffsetRect(r, dx, dy)) && OffsetRect(r, 0.0, 0.0) == Normalize(r)
  {
  }

  /** graphene_rect_inset: normalise, move the origin by (dx, dy), shrink
    * each dimension by twice the inset, and clamp it at 0. */
  function InsetRect(r: Rect, dx: real, dy: real): Rect
  {
    var n := Normalize(r);
    MakeRect(n.origin.x + dx, n.origin.y + dy,
             P.Max(n.size.width - 2.0 * dx, 0.0), P.Max(n.size.height - 2.0 * dy, 0.0))
  }

  /** The inset never makes a size negative, keeps the centre while the
    * size stays positive, and follows the four steps of the inset test. */
  lemma InsetProperties(r: Rect, dx: real, dy: real)
    ensures IsNormal(InsetRect(r, dx, dy))
    ensures Normalize(r).size.width - 2.0 * dx >= 0.0 ==>
      InsetRect(r, dx, dy).origin.x + InsetRect(r, dx, dy).size.width / 2.0 ==
      Normalize(r).origin.x + Normalize(r).size.width / 2.0
    ensures InsetRect(MakeRect(0.0, 0.0, 10.0, 10.0), 2.0, 2.0) == MakeRect(2.0, 2.0, 6.0, 6.0)
    ensures InsetRect(MakeRect(2.0, 2.0, 6.0, 6.0), 2.0, -2.0) == MakeRect(4.0, 0.0, 2.0, 10.0)
    ensures InsetRect(MakeRect(4.0, 0.0, 2.0, 10.0), -2.0, 6.0) == MakeRect(2.0, 6.0, 6.0, 0.0)
    ensures InsetRect(MakeRect(2.0, 6.0, 6.0, 0.0), 8.0, 0.0) == MakeRect(10.0, 6.0, 0.0, 0.0)
  {
  }

  function FloorR(v: real): real { v.Floor as real }

  function CeilR(v: real): real { -((-v).Floor as real) }

  /** graphene_rect_round_to_pixel: normalise, floor the origin and ceil the
    * size. */
  function RoundRectToPixel(r: Rect): Rect
  {
    var n := Normalize(r);
    MakeRect(FloorR(n.origin.x), FloorR(n.origin.y), CeilR(n.size.width), CeilR(n.size.height))
  }

  /** The rounded rectangle has whole coordinates, starts at most one unit
    * before the original and is at least as large; because origin and size
    * are rounded separately its far edge can end up before the original's:
    * (0.9, 0, 0.2, 1) becomes (0, 0, 1, 1). */
  lemma RoundToPixelProperties(r: Rect)
    ensures var q, n := RoundRectToPixel(r), Normalize(r);
      q.origin.x <= n.origin.x < q.origin.x + 1.0 && q.origin.y <= n.origin.y < q.origin.y + 1.0 &&
      n.size.width <= q.size.width < n.size.width + 1.0 && n.size.height <= q.size.height < n.size.height + 1.0
    ensures RoundRectToPixel(MakeRect(0.5, 1.9, 9.3, 8.7)) == MakeRect(0.0, 1.0, 10.0, 9.0)
    ensures RoundRectToPixel(MakeRect(0.9, 0.0, 0.2, 1.0)) == MakeRect(0.0, 0.0, 1.0, 1.0)
  {
    assert (0.5).Floor == 0 && (1.9).Floor == 1 && (-9.3).Floor == -10 && (-8.7).Floor == -9;
    assert (0.9).Floor == 0 && (-0.2).Floor == -1 && (-1.0).Floor == -1 && (0.0).Floor == 0;
  }

  /** graphene_rect_interpolate: a + (b - a) * factor on each normalised
    * field. */
  function Interpolate(a: Rect, b: Rect, factor: real): Rect
  {
    var ra, rb := Normalize(a), Normalize(b);
    Rect(Points.Interpolate(ra.origin, rb.origin, factor), Sizes.Interpolate(ra.size, rb.size, factor))
  }

  lemma InterpolateEnds(a: Rect, b: Rect)
    ensures Interpolate(a, b, 0.0) == Normalize(a)
    ensures Interpolate(a, b, 1.0) == Normalize(b)
  {
    Points.InterpolateEnds(Normalize(a).origin, Normalize(b).origin, 0.0);
    Sizes.InterpolateEnds(Normalize(a).size, Normalize(b).size, 0.0);
  }

  /** A graphene_rect_t updated in place. */
  class RectStruct {
    var origin: Point
    var size: Size

    function Value(): Rect
      reads this
    {
      Rect(origin, size)
    }

    constructor (r: Rect)
      ensures Value() == r
    {
      origin, size := r.origin, r.size;
    }

    /** graphene_rect_normalize_internal, also reached through
      * graphene_rect_normalize. */
    method NormalizeInternal()
      modifies this
      ensures Value() == Normalize(old(Value()))
    {
      if size.width >= 0.0 && size.height >= 0.0 {
        return;
      }
      if size.width < 0.0 {
        var s := Abs(size.width);
        origin := origin.(x := origin.x - s);
        size := size.(width := s);
      }
      if size.height < 0.0 {
        var s := Abs(size.height);
        origin := origin.(y := origin.y - s);
        size := size.(height := s);
      }
    }

    /** graphene_rect_init: store the fields, then normalise. */
    method Init(x: real, y: real, w: real, h: real)
      modifies this
      ensures Value() == Normalize(MakeRect(x, y, w, h))
    {
      origin := Point(x, y);
      size := Size(w, h);
      NormalizeInternal();
    }

    /** graphene_rect_init_with_rect: a plain copy, not normalised. */
    method InitWithRect(src: Rect)
      modifies this
      ensures Value() == src
    {
      origin, size := src.origin, src.size;
    }

    method Offset(dx: real, dy: real)
      modifies this
      ensures Value() == OffsetRect(old(Value()), dx, dy)
    {
      NormalizeInternal();
      origin := origin.(x := origin.x + dx);
      origin := origin.(y := origin.y + dy);
    }

    method Inset(dx: real, dy: real)
      modifies this
      ensures Value() == InsetRect(old(Value()), dx, dy)
    {
      NormalizeInternal();
      origin := origin.(x := origin.x + dx);
      origin := origin.(y := origin.y + dy);
      if dx >= 0.0 {
        size := size.(width := size.width - dx * 2.0);
      } else {
        size := size.(width := size.width + dx * -2.0);
      }
      if dy >= 0.0 {
        size := size.(height := size.height - dy * 2.0);
      } else {
        size := size.(height := size.height + dy * -2.0);
      }
      if size.width < 0.0 {
        size := size.(width := 0.0);
      }
      if size.height < 0.0 {
        size := size.(height := 0.0);
      }
    }

    method RoundToPixel()
      modifies this
      ensures Value() == RoundRectToPixel(old(Value()))
    {
      NormalizeInternal();
      origin := origin.(x := FloorR(origin.x));
      origin := origin.(y := FloorR(origin.y));
      size := size.(width := CeilR(size.width));
      size := size.(height := CeilR(size.height));
    }
  }
}
