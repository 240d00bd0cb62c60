// The expression macros of graphene-private.h over the reals.

module Private {

  /** GRAPHENE_FLOAT_EPSILON, the tolerance of the fuzzy `*_equal` checks. */
  const FloatEpsilon: real := 0.000000000000001

  /** FLT_EPSILON of IEEE single precision, 2^-23. */
  const FltEpsilon: real := 1.0 / 8388608.0

  /** GRAPHENE_PI; only its positivity matters to the model. */
  const Pi: real := 3.1415926535897932384626434

  /** MIN(a, b) is `a < b ? a : b`. */
  function Min(a: real, b: real): (r: real)
    ensures r == a || r == b
    ensures r <= a && r <= b
  {
    if a < b then a else b
  }

  /** MAX(a, b) is `a > b ? a : b`. */
  function Max(a: real, b: real): (r: real)
    ensures r == a || r == b
    ensures r >= a && r >= b
  {
    if a > b then a else b
  }

  /** CLAMP(v, lo, hi) is `v < lo ? lo : (v > hi ? hi : v)`. */
  function Clamp(v: real, lo: real, hi: real): (r: real)
    ensures lo <= hi ==> lo <= r <= hi
    ensures lo <= v <= hi ==> r == v
    ensures v < lo ==> r == lo
  {
    if v < lo then lo else if v > hi then hi else v
  }

  /** graphene_lerp(a, b, f) is (1 - f) * a + f * b. */
  function Lerp(a: real, b: real, f: real): real
  {
    (1.0 - f) * a + f * b
  }

  lemma LerpEnds(a: real, b: real)
    ensures Lerp(a, b, 0.0) == a
    ensures Lerp(a, b, 1.0) == b
    ensures Lerp(a, b, 0.5) == (a + b) / 2.0
  {
  }

  /** Over the reals, the interpolation stays between its end points. */
  lemma LerpBetween(a: real, b: real, f: real)
    requires a <= b && 0.0 <= f <= 1.0
    ensures a <= Lerp(a, b, f) <= b
  {
    assert Lerp(a, b, f) == a + f * (b - a);
    MulLeMonotone(0.0, f, b - a);
    MulLeMonotone(f, 1.0, b - a);
  }

  lemma MulLeMonotone(x: real, y: real, c: real)
    requires x <= y && c >= 0.0
    ensures x * c <= y * c
  {
  }

  function DegToRad(x: real): real { x * (Pi / 180.0) }

  function RadToDeg(x: real): real { x * (180.0 / Pi) }

  lemma DegRadRoundTrip(x: real)
    ensures RadToDeg(DegToRad(x)) == x
    ensures DegToRad(RadToDeg(x)) == x
  {
    calc {
      RadToDeg(DegToRad(x));
      x * (Pi / 180.0) * (180.0 / Pi);
      x * ((Pi / 180.0) * (180.0 / Pi));
      x * 1.0;
    }
    calc {
      DegToRad(RadToDeg(x));
      x * (180.0 / Pi) * (Pi / 180.0);
      x * ((180.0 / Pi) * (Pi / 180.0));
      x * 1.0;
    }
  }
}
