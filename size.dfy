// graphene_size_t: a width and a height. Every operation writes the fields
// of an out-parameter, so the struct is a class whose methods store the
// value the matching function computes.

module Sizes {

  import opened Common
  import P = Private

  datatype Size = Size(width: real, height: real)

  /** graphene_size_scale: both dimensions multiplied by the factor. */
  function Scale(s: Size, factor: real): (r: Size)
    ensures r.width == s.width * factor && r.height == s.height * factor
  {
    Size(s.width * factor, s.height * factor)
  }

  /** graphene_size_interpolate: a + (b - a) * factor per dimension. */
  function Interpolate(a: Size, b: Size, factor: real): Size
  {
    Size(a.width + (b.width - a.width) * factor, a.height + (b.height - a.height) * factor)
  }

  /** Interpolation returns a at 0, b at 1 and the midpoint at 0.5, and
    * agrees with graphene_lerp in each dimension. */
  lemma InterpolateEnds(a: Size, b: Size, factor: real)
    ensures Interpolate(a, b, 0.0) == a && Interpolate(a, b, 1.0) == b
    ensures Interpolate(a, b, 0.5) == Size((a.width + b.width) / 2.0, (a.height + b.height) / 2.0)
    ensures Interpolate(a, b, factor) ==
      Size(P.Lerp(a.width, b.width, factor), P.Lerp(a.height, b.height, factor))
  {
  }

  /** Scaling 10x10 by 0.5 gives 5x5; scaling by 1 changes nothing and a
    * scale by f then 1/f restores the size. */
  lemma ScaleProperties(s: Size, f: real)
    ensures Scale(Size(10.0, 10.0), 0.5) == Size(5.0, 5.0)
    ensures Scale(s, 1.0) == s
    ensures f != 0.0 ==> Scale(Scale(s, f), 1.0 / f) == s
  {
    if f != 0.0 {
      assert s.width * f * (1.0 / f) == s.width * (f * (1.0 / f));
      assert s.height * f * (1.0 / f) == s.height * (f * (1.0 / f));
    }
  }

  /** The fuzzy comparison graphene_size_equal hands to
    * graphene_pointer_equal: both dimensions within GRAPHENE_FLOAT_EPSILON. */
  predicate NearValues(a: Size, b: Size)
  {
    Abs(a.width - b.width) < P.FloatEpsilon && Abs(a.height - b.height) < P.FloatEpsilon
  }

  function Equal(p: PtrPair<Size>): bool { PointerEqual(p, NearValues) }

  /** A size equals itself and its copies, never NULL, and equality is
    * symmetric. */
  lemma EqualProperties(a: Size, b: Size)
    ensures Equal(Same(a)) && Equal(Distinct(a, a)) && !Equal(OneNull)
    ensures Equal(Distinct(a, b)) <==> Equal(Distinct(b, a))
  {
    assert Abs(a.width - b.width) == Abs(b.width - a.width);
    assert Abs(a.height - b.height) == Abs(b.height - a.height);
  }

  /** A graphene_size_t the functions of graphene-size.c write into. */
  class SizeStruct {
    var width: real
    var height: real

    function Value(): Size
      reads this
    {
      Size(width, height)
    }

    constructor (s: Size)
      ensures Value() == s
    {
      width, height := s.width, s.height;
    }

    /** graphene_size_init */
    method Init(w: real, h: real)
      modifies this
      ensures Value() == Size(w, h)
    {
      width := w;
      height := h;
    }

    /** graphene_size_init_from_size: `*s = *src`. */
    method InitFromSize(src: Size)
      modifies this
      ensures Value() == src
    {
      width, height := src.width, src.height;
    }

    /** graphene_size_scale with this struct as res: s is copied into the
      * fields first, then each field is multiplied in place. */
    method ScaleFrom(s: Size, factor: real)
      modifies this
      ensures Value() == Scale(s, factor)
    {
      width, height := s.width, s.height;
      width := width * factor;
      height := height * factor;
    }

    /** graphene_size_interpolate with this struct as res. */
    method InterpolateFrom(a: Size, b: Size, factor: real)
      modifies this
      ensures Value() == Interpolate(a, b, factor)
    {
      width := a.width + (b.width - a.width) * factor;
      height := a.height + (b.height - a.height) * factor;
    }
  }
}
