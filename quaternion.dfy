// graphene_quaternion_t: four scalars x, y, z, w. to_matrix builds the
// rotation rows and initialises a matrix from them; slerp blends two
// quaternions, copying the first when they point the same way.

module Quaternions {

  import P = Private
  import S = Simd
  import X = Simd4x4
  import M = Matrices

  datatype Quaternion = Quaternion(x: real, y: real, z: real, w: real)

  /** graphene_quaternion_init stores the four components, which read back
    * as the lanes x, y, z, w in that order. */
  function Init(x: real, y: real, z: real, w: real): (q: Quaternion)
    ensures AsSimd(q) == S.Simd4(x, y, z, w)
  {
    Quaternion(x, y, z, w)
  }

  function AsSimd(q: Quaternion): S.Simd4f { S.Simd4(q.x, q.y, q.z, q.w) }

  function Negated(q: Quaternion): Quaternion { Quaternion(-q.x, -q.y, -q.z, -q.w) }

  /** The squared length x² + y² + z² + w². */
  function Norm2(q: Quaternion): real { q.x * q.x + q.y * q.y + q.z * q.z + q.w * q.w }

  // ----- to_matrix -----

  /** The rotation rows to_matrix computes for x, y and z. */
  function RowX(q: Quaternion): S.Simd4f
  {
    S.Simd4(1.0 - 2.0 * (q.y * q.y + q.z * q.z), 2.0 * (q.x * q.y + q.w * q.z), 2.0 * (q.x * q.z - q.w * q.y), 0.0)
  }

  function RowY(q: Quaternion): S.Simd4f
  {
    S.Simd4(2.0 * (q.x * q.y - q.w * q.z), 1.0 - 2.0 * (q.x * q.x + q.z * q.z), 2.0 * (q.y * q.z + q.w * q.x), 0.0)
  }

  function RowZ(q: Quaternion): S.Simd4f
  {
    S.Simd4(2.0 * (q.x * q.z + q.w * q.y), 2.0 * (q.y * q.z - q.w * q.x), 1.0 - 2.0 * (q.x * q.x + q.y * q.y), 0.0)
  }

  /** graphene_quaternion_to_matrix as written: the w row is (0, 0, 0, 0). */
  function ToMatrixAsWritten(q: Quaternion): (r: M.Matrix)
    ensures r == RotationMatrix(q).(w := S.Zero)
  {
    X.Simd4x4f(RowX(q), RowY(q), RowZ(q), S.Simd4(0.0, 0.0, 0.0, 0.0))
  }

  /** The rotation matrix with the homogeneous w row (0, 0, 0, 1), as every
    * other rotation in the library builds it. */
  function RotationMatrix(q: Quaternion): (r: M.Matrix)
    ensures r.w == S.Simd4(0.0, 0.0, 0.0, 1.0)
    ensures r.x.w == 0.0 && r.y.w == 0.0 && r.z.w == 0.0
  {
    X.Simd4x4f(RowX(q), RowY(q), RowZ(q), S.Simd4(0.0, 0.0, 0.0, 1.0))
  }

  /** to_matrix: the rows are built first, then the matrix is initialised
    * from them (corrected w row). */
  method ToMatrix(q: Quaternion, m: M.MatrixStruct)
    modifies m
    ensures m.value == RotationMatrix(q)
  {
    var mx := RowX(q);
    var my := RowY(q);
    var mz := RowZ(q);
    var mw := S.Simd4(0.0, 0.0, 0.0, 1.0);
    m.InitFromVec4(mx, my, mz, mw);
  }

  /** As written, the identity quaternion does not give the identity
    * matrix. */
  lemma AsWrittenNotIdentity()
    ensures !M.IsIdentity(ToMatrixAsWritten(Init(0.0, 0.0, 0.0, 1.0)))
  {
    assert ToMatrixAsWritten(Init(0.0, 0.0, 0.0, 1.0)).w.w == 0.0;
    assert X.Identity.w.w == 1.0;
  }

  /** As written, no quaternion gives a matrix that keeps the w lane of a
    * point: the transformed vector always has w = 0. */
  lemma AsWrittenLosesW(q: Quaternion, p: S.Simd4f)
    ensures X.Vec4Mul(ToMatrixAsWritten(q), p).w == 0.0
  {
    X.Vec4MulIsProduct(ToMatrixAsWritten(q), p);
  }

  /** The corrected matrix: the identity quaternion (0, 0, 0, 1) gives the
    * identity. */
  lemma RotationMatrixOfIdentity(q: Quaternion)
    requires q == Init(0.0, 0.0, 0.0, 1.0)
    ensures M.IsIdentity(RotationMatrix(q))
  {
    assert q.x == 0.0;
    assert q.y == 0.0;
    assert q.z == 0.0;
    assert q.w == 1.0;
  }

  /** Every quaternion gives an affine matrix: w row (0, 0, 0, 1) and the w
    * lanes of the other rows 0, so points keep w = 1. */
  lemma RotationMatrixAffine(q: Quaternion, p: S.Simd4f)
    ensures RotationMatrix(q).w == S.Simd4(0.0, 0.0, 0.0, 1.0)
    ensures RotationMatrix(q).x.w == 0.0 && RotationMatrix(q).y.w == 0.0 && RotationMatrix(q).z.w == 0.0
    ensures X.Vec4Mul(RotationMatrix(q), p).w == p.w
  {
    X.Vec4MulIsProduct(RotationMatrix(q), p);
  }

  lemma NegProduct(a: real, b: real)
    ensures (-a) * (-b) == a * b
  {
  }

  /** q and -q give the same rotation matrix. */
  lemma RotationMatrixNegated(q: Quaternion)
    ensures RotationMatrix(Negated(q)) == RotationMatrix(q)
  {
    NegProduct(q.x, q.x); NegProduct(q.y, q.y); NegProduct(q.z, q.z);
    NegProduct(q.x, q.y); NegProduct(q.x, q.z); NegProduct(q.y, q.z);
    NegProduct(q.w, q.x); NegProduct(q.w, q.y); NegProduct(q.w, q.z);
    var n := Negated(q);
    assert RowX(n) == RowX(q);
    assert RowY(n) == RowY(q);
    assert RowZ(n) == RowZ(q);
  }

  /** For a unit quaternion the first row of the rotation has length 1. */
  lemma UnitRowX(q: Quaternion)
    requires Norm2(q) == 1.0
    ensures S.Dot4(RowX(q), RowX(q)).x == 1.0
  {
    var a, b := q.y * q.y + q.z * q.z, q.x * q.x + q.w * q.w;
    assert a + b == 1.0;
    calc {
      S.Dot4(RowX(q), RowX(q)).x;
      (1.0 - 2.0 * a) * (1.0 - 2.0 * a) + 4.0 * (q.x * q.y + q.w * q.z) * (q.x * q.y + q.w * q.z)
        + 4.0 * (q.x * q.z - q.w * q.y) * (q.x * q.z - q.w * q.y);
      { assert (q.x * q.y + q.w * q.z) * (q.x * q.y + q.w * q.z) + (q.x * q.z - q.w * q.y) * (q.x * q.z - q.w * q.y)
          == a * b; }
      (1.0 - 2.0 * a) * (1.0 - 2.0 * a) + 4.0 * a * b;
      { assert b == 1.0 - a; }
      1.0;
    }
  }

  // ----- slerp -----

  /** graphene_quaternion_slerp. The clamped dot product is compared with 1
    * and a copy of a is returned when it is; otherwise the result blends a
    * and b with weights from acos, sin, cos and sqrt, which this model takes
    * as parameters: rightWeight(factor, dot) is sin(factor θ) / sin θ and
    * cosine(factor, dot) is cos(factor θ), for θ = acos(dot). */
  function Slerp(a: Quaternion, b: Quaternion, factor: real,
                 rightWeight: (real, real) -> real, cosine: (real, real) -> real): (r: Quaternion)
    ensures S.Dot4(AsSimd(a), AsSimd(b)).x >= 1.0 ==> r == a
  {
    var dot := P.Clamp(S.Dot4(AsSimd(a), AsSimd(b)).x, -1.0, 1.0);
    if dot == 1.0 then a
    else
      var right := rightWeight(factor, dot);
      var left := cosine(factor, dot) - dot * right;
      Blend(a, b, left, right)
  }

  /** The lanes of left * a + right * b, as slerp reads them back. */
  function Blend(a: Quaternion, b: Quaternion, left: real, right: real): (r: Quaternion)
    ensures r == Quaternion(a.x * left + b.x * right, a.y * left + b.y * right,
                            a.z * left + b.z * right, a.w * left + b.w * right)
  {
    var sum := S.Add(S.Mul(AsSimd(a), S.Splat(left)), S.Mul(AsSimd(b), S.Splat(right)));
    Quaternion(sum.x, sum.y, sum.z, sum.w)
  }

  /** A dot product of at least 1 (clamped to 1) returns a unchanged,
    * whatever the factor; in particular a unit quaternion slerped with
    * itself is itself. */
  lemma SlerpShortcut(a: Quaternion, b: Quaternion, factor: real,
                      rightWeight: (real, real) -> real, cosine: (real, real) -> real)
    ensures S.Dot4(AsSimd(a), AsSimd(b)).x >= 1.0 ==> Slerp(a, b, factor, rightWeight, cosine) == a
    ensures Norm2(a) == 1.0 ==> Slerp(a, a, factor, rightWeight, cosine) == a
  {
    assert S.Dot4(AsSimd(a), AsSimd(a)).x == Norm2(a);
  }

  /** Otherwise slerp is the blend left * a + right * b, and that is the
    * case exactly when the dot product is below 1. */
  lemma SlerpBlend(a: Quaternion, b: Quaternion, factor: real,
                   rightWeight: (real, real) -> real, cosine: (real, real) -> real, dot: real)
    requires dot == P.Clamp(S.Dot4(AsSimd(a), AsSimd(b)).x, -1.0, 1.0)
    ensures dot != 1.0 <==> S.Dot4(AsSimd(a), AsSimd(b)).x < 1.0
    ensures dot != 1.0 ==>
      Slerp(a, b, factor, rightWeight, cosine) == Blend(a, b, cosine(factor, dot) - dot * rightWeight(factor, dot), rightWeight(factor, dot))
  {
    ClampToOne(S.Dot4(AsSimd(a), AsSimd(b)).x);
  }

  /** The clamped dot product is 1 exactly when the dot product is at least 1. */
  lemma ClampToOne(d: real)
    ensures P.Clamp(d, -1.0, 1.0) == 1.0 <==> d >= 1.0
  {
  }

  /** At factor 0, where sin(0) = 0 and cos(0) = 1, slerp gives a. */
  lemma SlerpAtZero(a: Quaternion, b: Quaternion,
                    rightWeight: (real, real) -> real, cosine: (real, real) -> real)
    requires forall d :: rightWeight(0.0, d) == 0.0
    requires forall d :: cosine(0.0, d) == 1.0
    ensures Slerp(a, b, 0.0, rightWeight, cosine) == a
  {
    var dot := P.Clamp(S.Dot4(AsSimd(a), AsSimd(b)).x, -1.0, 1.0);
    if dot != 1.0 {
      assert rightWeight(0.0, dot) == 0.0 && cosine(0.0, dot) == 1.0;
      assert Blend(a, b, 1.0, 0.0) == a;
    }
  }
}
