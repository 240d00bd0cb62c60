// Shared vocabulary of the model: optional values, the pointer-argument
// conventions of the C API, and the extended reals used for box sentinels.

module Common {

  datatype Option<T> = None | Some(value: T)

  /** How two pointer arguments of a C comparison relate to each other:
    * both NULL, exactly one NULL, the same object twice, or two distinct
    * objects holding the given values. */
  datatype PtrPair<T> = BothNull | OneNull | Same(v: T) | Distinct(a: T, b: T)

  /** graphene_pointer_equal: identical pointers (including two NULLs) are
    * equal, a NULL and a non-NULL pointer are not, and two distinct objects
    * are compared with the type's own equality. */
  function PointerEqual<T>(p: PtrPair<T>, eq: (T, T) -> bool): (r: bool)
    ensures (p.BothNull? || p.Same?) ==> r
    ensures p.OneNull? ==> !r
    ensures p.Distinct? ==> (r <==> eq(p.a, p.b))
  {
    match p
    case BothNull => true
    case OneNull => false
    case Same(_) => true
    case Distinct(a, b) => eq(a, b)
  }

  /** The pair passed when a value is compared against a copy of itself. */
  function CopyPair<T>(a: T, b: T): PtrPair<T> { Distinct(a, b) }

  /** fabsf over the reals. */
  function Abs(x: real): (r: real)
    ensures r >= 0.0
    ensures r == x || r == -x
  {
    if x < 0.0 then -x else x
  }
}

/** IEEE single floats restricted to what the boxes need: a real value or
  * one of the two infinities used as sentinels. NaN is never produced by the
  * modelled operations; where the source could produce it the operation
  * carries a precondition instead. */
module ExtReal {

  datatype EReal = NegInf | Fin(r: real) | PosInf

  predicate Le(a: EReal, b: EReal)
  {
    a.NegInf? || b.PosInf? || (a.Fin? && b.Fin? && a.r <= b.r)
  }

  predicate Lt(a: EReal, b: EReal)
  {
    !Le(b, a)
  }

  /** `a < b ? a : b` */
  function Min(a: EReal, b: EReal): (r: EReal)
    ensures Le(r, a) && Le(r, b)
    ensures r == a || r == b
  {
    if Lt(a, b) then a else b
  }

  /** `a > b ? a : b` */
  function Max(a: EReal, b: EReal): (r: EReal)
    ensures Le(a, r) && Le(b, r)
    ensures r == a || r == b
  {
    if Lt(b, a) then a else b
  }

  /** Addition is defined except for the two opposite infinities. */
  predicate AddDefined(a: EReal, b: EReal)
  {
    !(a.NegInf? && b.PosInf?) && !(a.PosInf? && b.NegInf?)
  }

  function Add(a: EReal, b: EReal): (r: EReal)
    requires AddDefined(a, b)
    ensures a.Fin? && b.Fin? ==> r == Fin(a.r + b.r)
    ensures (a.PosInf? || b.PosInf?) ==> r.PosInf?
    ensures (a.NegInf? || b.NegInf?) ==> r.NegInf?
  {
    if a.Fin? && b.Fin? then Fin(a.r + b.r)
    else if a.PosInf? || b.PosInf? then PosInf
    else NegInf
  }

  function Neg(a: EReal): (r: EReal)
    ensures a.Fin? ==> r == Fin(-a.r)
    ensures a.PosInf? <==> r.NegInf?
    ensures a.NegInf? <==> r.PosInf?
  {
    match a
    case NegInf => PosInf
    case PosInf => NegInf
    case Fin(x) => Fin(-x)
  }

  /** fabsf: an infinity of either sign becomes +inf. */
  function Magnitude(a: EReal): (r: EReal)
    ensures Le(Fin(0.0), r)
    ensures a.Fin? ==> r.Fin? && (r.r == a.r || r.r == -a.r)
    ensures !a.Fin? ==> r.PosInf?
  {
    if a.Fin? then Fin(if a.r < 0.0 then -a.r else a.r) else PosInf
  }

  /** Subtraction is a + (-b). */
  function Sub(a: EReal, b: EReal): (r: EReal)
    requires AddDefined(a, Neg(b))
    ensures a.Fin? && b.Fin? ==> r == Fin(a.r - b.r)
  {
    Add(a, Neg(b))
  }

  /** Multiplication is defined except for an infinity times zero. */
  predicate MulDefined(a: EReal, b: EReal)
  {
    !(!a.Fin? && b == Fin(0.0)) && !(!b.Fin? && a == Fin(0.0))
  }

  function Mul(a: EReal, b: EReal): (r: EReal)
    requires MulDefined(a, b)
    ensures a.Fin? && b.Fin? ==> r == Fin(a.r * b.r)
    ensures a == Fin(1.0) ==> r == b
  {
    if a.Fin? && b.Fin? then Fin(a.r * b.r)
    else if a.Fin? then (if a.r > 0.0 then b else Neg(b))
    else if b.Fin? then (if b.r > 0.0 then a else Neg(a))
    else if a == b then PosInf
    else NegInf
  }

  lemma LeTotal(a: EReal, b: EReal)
    ensures Le(a, b) || Le(b, a)
  {
  }

  lemma LeTrans(a: EReal, b: EReal, c: EReal)
    requires Le(a, b) && Le(b, c)
    ensures Le(a, c)
  {
  }
}
