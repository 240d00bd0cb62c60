// graphene_simd4x4f_t: a 4x4 matrix stored as four simd4f rows x, y, z, w
// in row-major order. Vectors are row vectors multiplied on the left, so
// vec4_mul(m, v) is the combination of the rows of m weighted by the lanes
// of v, and matrix_mul(a, b) has row i equal to vec4_mul(a, row i of b).

module Simd4x4 {

  import S = Simd

  datatype Simd4x4f = Simd4x4f(x: S.Simd4f, y: S.Simd4f, z: S.Simd4f, w: S.Simd4f)

  /** Row i, in the order x, y, z, w. */
  function Row(m: Simd4x4f, i: nat): S.Simd4f
    requires i < 4
  {
    if i == 0 then m.x else if i == 1 then m.y else if i == 2 then m.z else m.w
  }

  /** The entry in row i, column j. */
  function Entry(m: Simd4x4f, i: nat, j: nat): real
    requires i < 4 && j < 4
  {
    S.Get(Row(m, i), j)
  }

  /** graphene_simd4x4f_init_identity. */
  const Identity: Simd4x4f :=
    Simd4x4f(S.Simd4(1.0, 0.0, 0.0, 0.0), S.Simd4(0.0, 1.0, 0.0, 0.0),
             S.Simd4(0.0, 0.0, 1.0, 0.0), S.Simd4(0.0, 0.0, 0.0, 1.0))

  /** The identity has ones on the diagonal and zeros elsewhere. */
  lemma IdentityEntries(i: nat, j: nat)
    requires i < 4 && j < 4
    ensures Entry(Identity, i, j) == if i == j then 1.0 else 0.0
  {
  }

  // ----- conversion from and to 16 floats -----

  /** init_from_float: f[0..3], f[4..7], f[8..11], f[12..15] become the rows. */
  function InitFromFloat(f: seq<real>): Simd4x4f
    requires |f| >= 16
  {
    Simd4x4f(S.InitN(f[0..4], 4), S.InitN(f[4..8], 4), S.InitN(f[8..12], 4), S.InitN(f[12..16], 4))
  }

  /** to_float: the rows one after another. */
  function ToFloat(m: Simd4x4f): (r: seq<real>)
    ensures |r| == 16
  {
    [m.x.x, m.x.y, m.x.z, m.x.w, m.y.x, m.y.y, m.y.z, m.y.w,
     m.z.x, m.z.y, m.z.z, m.z.w, m.w.x, m.w.y, m.w.z, m.w.w]
  }

  /** The layout is row-major: entry (i, j) is float 4i + j. */
  lemma RowMajor(f: seq<real>, i: nat, j: nat)
    requires |f| >= 16 && i < 4 && j < 4
    ensures Entry(InitFromFloat(f), i, j) == f[4 * i + j]
    ensures ToFloat(InitFromFloat(f))[4 * i + j] == f[4 * i + j]
  {
  }

  /** Loading 16 floats and storing them gives them back, and the other way
    * round. */
  lemma FloatRoundTrip(f: seq<real>, m: Simd4x4f)
    requires |f| >= 16
    ensures ToFloat(InitFromFloat(f)) == f[..16]
    ensures InitFromFloat(ToFloat(m)) == m
  {
    var t := ToFloat(InitFromFloat(f));
    forall k | 0 <= k < 16
      ensures t[k] == f[k]
    {
      RowMajor(f, k / 4, k % 4);
    }
  }

  // ----- products -----

  /** The reference row-vector-times-matrix product: lane j is
    * v.x m[0][j] + v.y m[1][j] + v.z m[2][j] + v.w m[3][j]. */
  function RowTimes(v: S.Simd4f, m: Simd4x4f): S.Simd4f
  {
    S.Simd4(v.x * m.x.x + v.y * m.y.x + v.z * m.z.x + v.w * m.w.x,
            v.x * m.x.y + v.y * m.y.y + v.z * m.z.y + v.w * m.w.y,
            v.x * m.x.z + v.y * m.y.z + v.z * m.z.z + v.w * m.w.z,
            v.x * m.x.w + v.y * m.y.w + v.z * m.z.w + v.w * m.w.w)
  }

  /** vec4_mul: the rows scaled by the splatted lanes of v, summed as
    * s_x + (s_y + (s_z + s_w)). */
  function Vec4Mul(m: Simd4x4f, v: S.Simd4f): S.Simd4f
  {
    S.Add(S.Mul(m.x, S.SplatLane(v, 0)),
          S.Add(S.Mul(m.y, S.SplatLane(v, 1)),
                S.Add(S.Mul(m.z, S.SplatLane(v, 2)), S.Mul(m.w, S.SplatLane(v, 3)))))
  }

  /** vec3_mul: as vec4_mul with the w row and lane left out. */
  function Vec3Mul(m: Simd4x4f, v: S.Simd4f): S.Simd4f
  {
    S.Add(S.Mul(m.x, S.SplatLane(v, 0)),
          S.Add(S.Mul(m.y, S.SplatLane(v, 1)), S.Mul(m.z, S.SplatLane(v, 2))))
  }

  /** point3_mul: as vec3_mul, plus the w row unscaled. */
  function Point3Mul(m: Simd4x4f, v: S.Simd4f): S.Simd4f
  {
    S.Add(S.Mul(m.x, S.SplatLane(v, 0)),
          S.Add(S.Mul(m.y, S.SplatLane(v, 1)), S.Add(S.Mul(m.z, S.SplatLane(v, 2)), m.w)))
  }

  /** vec4_mul is the row vector times the matrix. */
  lemma Vec4MulIsProduct(m: Simd4x4f, v: S.Simd4f)
    ensures Vec4Mul(m, v) == RowTimes(v, m)
  {
  }

  /** vec3_mul is vec4_mul of the vector with w = 0, and point3_mul is
    * vec4_mul of the point with w = 1. */
  lemma Vec3MulIsProduct(m: Simd4x4f, v: S.Simd4f)
    ensures Vec3Mul(m, v) == RowTimes(S.ZeroW(v), m)
  {
    Vec4MulIsProduct(m, S.ZeroW(v));
    assert S.Mul(m.w, S.SplatLane(S.ZeroW(v), 3)) == S.Zero;
    assert Vec3Mul(m, v) == Vec4Mul(m, S.ZeroW(v));
  }

  lemma Point3MulIsProduct(m: Simd4x4f, v: S.Simd4f)
    ensures Point3Mul(m, v) == RowTimes(S.MergeW(v, 1.0), m)
  {
    Vec4MulIsProduct(m, S.MergeW(v, 1.0));
    assert S.Mul(m.w, S.SplatLane(S.MergeW(v, 1.0), 3)) == m.w;
    assert Point3Mul(m, v) == Vec4Mul(m, S.MergeW(v, 1.0));
  }

  /** matrix_mul(a, b): row i of the result is vec4_mul(a, row i of b),
    * so the result is the matrix product b a. */
  function MatrixMul(a: Simd4x4f, b: Simd4x4f): (r: Simd4x4f)
    ensures forall i | 0 <= i < 4 :: Row(r, i) == RowTimes(Row(b, i), a)
  {
    Vec4MulIsProduct(a, b.x);
    Vec4MulIsProduct(a, b.y);
    Vec4MulIsProduct(a, b.z);
    Vec4MulIsProduct(a, b.w);
    Simd4x4f(Vec4Mul(a, b.x), Vec4Mul(a, b.y), Vec4Mul(a, b.z), Vec4Mul(a, b.w))
  }

  /** Every row of matrix_mul(a, b) is the matching row of b times a. */
  lemma MatrixMulRows(a: Simd4x4f, b: Simd4x4f, i: nat)
    requires i < 4
    ensures Row(MatrixMul(a, b), i) == RowTimes(Row(b, i), a)
  {
    Vec4MulIsProduct(a, Row(b, i));
  }

  lemma RowTimesIdentity(v: S.Simd4f)
    ensures RowTimes(v, Identity) == v
  {
  }

  lemma UnitRowTimes(a: Simd4x4f)
    ensures RowTimes(Identity.x, a) == a.x && RowTimes(Identity.y, a) == a.y
    ensures RowTimes(Identity.z, a) == a.z && RowTimes(Identity.w, a) == a.w
  {
  }

  /** The identity is a unit on both sides of matrix_mul. */
  lemma MatrixMulIdentity(m: Simd4x4f)
    ensures MatrixMul(Identity, m) == m
    ensures MatrixMul(m, Identity) == m
  {
    Vec4MulIsProduct(Identity, m.x);
    Vec4MulIsProduct(Identity, m.y);
    Vec4MulIsProduct(Identity, m.z);
    Vec4MulIsProduct(Identity, m.w);
    RowTimesIdentity(m.x);
    RowTimesIdentity(m.y);
    RowTimesIdentity(m.z);
    RowTimesIdentity(m.w);
    Vec4MulIsProduct(m, Identity.x);
    Vec4MulIsProduct(m, Identity.y);
    Vec4MulIsProduct(m, Identity.z);
    Vec4MulIsProduct(m, Identity.w);
    UnitRowTimes(m);
  }

  // ----- matrix_mul writing into one of its operands -----

  /** What matrix_mul computes when res is the same matrix as a: row i is
    * taken against a whose rows before i already hold the new values. */
  function AliasedMul(a: Simd4x4f, b: Simd4x4f): (r: Simd4x4f)
    ensures r.x == MatrixMul(a, b).x
  {
    var r0 := Vec4Mul(a, b.x);
    var a1 := a.(x := r0);
    var r1 := Vec4Mul(a1, b.y);
    var a2 := a1.(y := r1);
    var r2 := Vec4Mul(a2, b.z);
    var a3 := a2.(z := r2);
    var r3 := Vec4Mul(a3, b.w);
    Simd4x4f(r0, r1, r2, r3)
  }

  /** d on the anti-diagonal; tests/matrix.c squares the one with d = 2. */
  function AntiDiagonal(d: real): Simd4x4f
  {
    Simd4x4f(S.Simd4(0.0, 0.0, 0.0, d), S.Simd4(0.0, 0.0, d, 0.0),
             S.Simd4(0.0, d, 0.0, 0.0), S.Simd4(d, 0.0, 0.0, 0.0))
  }

  /** A row vector whose only non-zero lane is y picks out row y, scaled;
    * one with only lane z picks out row z. Stated for lane y. */
  lemma LaneYPicksY(m: Simd4x4f, c: real)
    ensures Vec4Mul(m, S.Simd4(0.0, c, 0.0, 0.0)).y == c * m.y.y
  {
  }

  lemma LaneZPicksY(m: Simd4x4f, c: real)
    ensures Vec4Mul(m, S.Simd4(0.0, 0.0, c, 0.0)).y == c * m.z.y
  {
  }

  /** The square of the anti-diagonal matrix is d * d times the identity,
    * so its row z has 0 in lane y. */
  lemma AntiDiagonalSquaredRowZ(d: real)
    ensures MatrixMul(AntiDiagonal(d), AntiDiagonal(d)).z.y == 0.0
  {
    LaneYPicksY(AntiDiagonal(d), d);
  }

  /** Row z of the aliased product reads row y after it has been
    * overwritten: its y lane is d * d * d where the square has 0. */
  lemma AliasedAntiDiagonalRowZ(d: real)
    ensures AliasedMul(AntiDiagonal(d), AntiDiagonal(d)).z.y == d * (d * d)
  {
    var a := AntiDiagonal(d);
    var a1 := a.(x := Vec4Mul(a, a.x));
    LaneZPicksY(a1, d);
    var a2 := a1.(y := Vec4Mul(a1, a.y));
    LaneYPicksY(a2, d);
  }

  /** So multiplying such a matrix (the test's d = 2 among them) by itself
    * into its first operand does not give its square. */
  lemma AliasedMulCounterexample(d: real)
    requires d != 0.0
    ensures AliasedMul(AntiDiagonal(d), AntiDiagonal(d)) != MatrixMul(AntiDiagonal(d), AntiDiagonal(d))
  {
    AntiDiagonalSquaredRowZ(d);
    AliasedAntiDiagonalRowZ(d);
    assert d * (d * d) != 0.0;
  }

  /** translation(x, y, z): identity rows with (x, y, z, 1) as row w. */
  function Translation(x: real, y: real, z: real): Simd4x4f
  {
    Identity.(w := S.Simd4(x, y, z, 1.0))
  }

  /** The scale matrix: x, y, z and 1 on the diagonal. */
  function Scale(x: real, y: real, z: real): Simd4x4f
  {
    Simd4x4f(S.Simd4(x, 0.0, 0.0, 0.0), S.Simd4(0.0, y, 0.0, 0.0),
             S.Simd4(0.0, 0.0, z, 0.0), S.Simd4(0.0, 0.0, 0.0, 1.0))
  }

  /** A translation moves points and leaves directions alone. */
  lemma TranslationActs(x: real, y: real, z: real, p: S.Simd4f)
    ensures Point3Mul(Translation(x, y, z), p) == S.Simd4(p.x + x, p.y + y, p.z + z, 1.0)
    ensures Vec3Mul(Translation(x, y, z), p) == S.ZeroW(p)
  {
  }

  /** Row i of a translation or scale matrix only reads row i of a or rows
    * that the aliased multiply has not yet overwritten, so matrix_mul into
    * its first operand is still correct for them. */
  lemma AliasedMulSafeForTranslation(a: Simd4x4f, x: real, y: real, z: real)
    ensures AliasedMul(a, Translation(x, y, z)) == MatrixMul(a, Translation(x, y, z))
  {
    var t := Translation(x, y, z);
    assert t.x == Identity.x && t.y == Identity.y && t.z == Identity.z;
    UnitLanes(a);
    assert a.(x := a.x) == a && a.(y := a.y) == a && a.(z := a.z) == a;
  }

  /** vec4_mul by the first three unit rows picks out a row of a. */
  lemma UnitLanes(a: Simd4x4f)
    ensures Vec4Mul(a, Identity.x) == a.x
    ensures Vec4Mul(a, Identity.y) == a.y
    ensures Vec4Mul(a, Identity.z) == a.z
  {
    Vec4MulIsProduct(a, Identity.x);
    Vec4MulIsProduct(a, Identity.y);
    Vec4MulIsProduct(a, Identity.z);
    UnitRowTimes(a);
  }

  lemma AliasedMulSafeForScale(a: Simd4x4f, x: real, y: real, z: real)
    ensures AliasedMul(a, Scale(x, y, z)) == MatrixMul(a, Scale(x, y, z))
  {
  }

  // ----- transpose -----

  /** transpose: entry (i, j) of the result is entry (j, i) of the input. */
  function Transpose(m: Simd4x4f): (r: Simd4x4f)
    ensures forall i, j | 0 <= i < 4 && 0 <= j < 4 :: Entry(r, i, j) == Entry(m, j, i)
  {
    Simd4x4f(S.Simd4(m.x.x, m.y.x, m.z.x, m.w.x), S.Simd4(m.x.y, m.y.y, m.z.y, m.w.y),
             S.Simd4(m.x.z, m.y.z, m.z.z, m.w.z), S.Simd4(m.x.w, m.y.w, m.z.w, m.w.w))
  }

  lemma TransposeEntry(m: Simd4x4f, i: nat, j: nat)
    requires i < 4 && j < 4
    ensures Entry(Transpose(m), i, j) == Entry(m, j, i)
  {
  }

  /** Transposing twice restores the matrix; the diagonal and the identity
    * stay fixed. */
  lemma TransposeProperties(m: Simd4x4f, i: nat)
    requires i < 4
    ensures Transpose(Transpose(m)) == m
    ensures Entry(Transpose(m), i, i) == Entry(m, i, i)
    ensures Transpose(Identity) == Identity
  {
    TransposeEntry(m, i, i);
  }

  // ----- the rowwise operations -----

  function RowwiseAdd(a: Simd4x4f, b: Simd4x4f): Simd4x4f
  {
    Simd4x4f(S.Add(a.x, b.x), S.Add(a.y, b.y), S.Add(a.z, b.z), S.Add(a.w, b.w))
  }

  function RowwiseSub(a: Simd4x4f, b: Simd4x4f): Simd4x4f
  {
    Simd4x4f(S.Sub(a.x, b.x), S.Sub(a.y, b.y), S.Sub(a.z, b.z), S.Sub(a.w, b.w))
  }

  function RowwiseMul(a: Simd4x4f, b: Simd4x4f): Simd4x4f
  {
    Simd4x4f(S.Mul(a.x, b.x), S.Mul(a.y, b.y), S.Mul(a.z, b.z), S.Mul(a.w, b.w))
  }

  predicate NoZeroEntry(b: Simd4x4f)
  {
    S.NoZeroLane(b.x) && S.NoZeroLane(b.y) && S.NoZeroLane(b.z) && S.NoZeroLane(b.w)
  }

  function RowwiseDiv(a: Simd4x4f, b: Simd4x4f): Simd4x4f
    requires NoZeroEntry(b)
  {
    Simd4x4f(S.Div(a.x, b.x), S.Div(a.y, b.y), S.Div(a.z, b.z), S.Div(a.w, b.w))
  }

  /** Subtraction undoes addition and division undoes multiplication,
    * entry by entry. */
  lemma RowwiseInverses(a: Simd4x4f, b: Simd4x4f)
    ensures RowwiseSub(RowwiseAdd(a, b), b) == a
    ensures NoZeroEntry(b) ==> RowwiseDiv(RowwiseMul(a, b), b) == a
  {
    if NoZeroEntry(b) {
      S.MulDivInverse(a.x, b.x);
      S.MulDivInverse(a.y, b.y);
      S.MulDivInverse(a.z, b.z);
      S.MulDivInverse(a.w, b.w);
    }
  }

  /** The entries of a rowwise sum are the sums of the entries. */
  lemma RowwiseAddEntry(a: Simd4x4f, b: Simd4x4f, i: nat, j: nat)
    requires i < 4 && j < 4
    ensures Entry(RowwiseAdd(a, b), i, j) == Entry(a, i, j) + Entry(b, i, j)
  {
  }

  // ----- the matrix updated in place -----

  /** A graphene_simd4x4f_t in memory, whose rows the in-place operations
    * overwrite. */
  class Matrix4 {
    var x: S.Simd4f
    var y: S.Simd4f
    var z: S.Simd4f
    var w: S.Simd4f

    function Value(): Simd4x4f
      reads this
    {
      Simd4x4f(x, y, z, w)
    }

    constructor (m: Simd4x4f)
      ensures Value() == m
    {
      x, y, z, w := m.x, m.y, m.z, m.w;
    }

    /** transpose_in_place of the vector-extension build: all four rows are
      * read into locals first, then each row is rebuilt from them. */
    method TransposeInPlace()
      modifies this
      ensures Value() == Transpose(old(Value()))
    {
      var sx, sy, sz, sw := x, y, z, w;
      x := S.Simd4(sx.x, sy.x, sz.x, sw.x);
      y := S.Simd4(sx.y, sy.y, sz.y, sw.y);
      z := S.Simd4(sx.z, sy.z, sz.z, sw.z);
      w := S.Simd4(sx.w, sy.w, sz.w, sw.w);
    }

    /** transpose_in_place of the scalar build: a full copy is taken, then
      * the sixteen entries are assigned one at a time from it. */
    method TransposeInPlaceScalar()
      modifies this
      ensures Value() == Transpose(old(Value()))
    {
      var m := Value();
      x := x.(x := m.x.x);
      x := x.(y := m.y.x);
      x := x.(z := m.z.x);
      x := x.(w := m.w.x);
      y := y.(x := m.x.y);
      y := y.(y := m.y.y);
      y := y.(z := m.z.y);
      y := y.(w := m.w.y);
      z := z.(x := m.x.z);
      z := z.(y := m.y.z);
      z := z.(z := m.z.z);
      z := z.(w := m.w.z);
      w := w.(x := m.x.w);
      w := w.(y := m.y.w);
      w := w.(z := m.z.w);
      w := w.(w := m.w.w);
    }
  }

  /** matrix_mul as written: the rows of res are written one after the
    * other, each computed from a and one row of b as they are at that
    * moment. Writing into b is harmless; writing into a is not. */
  method MatrixMulInto(a: Matrix4, b: Matrix4, res: Matrix4)
    modifies res
    ensures res != a ==> res.Value() == MatrixMul(old(a.Value()), old(b.Value()))
    ensures res == a ==> res.Value() == AliasedMul(old(a.Value()), old(b.Value()))
  {
    res.x := Vec4Mul(a.Value(), b.x);
    res.y := Vec4Mul(a.Value(), b.y);
    res.z := Vec4Mul(a.Value(), b.z);
    res.w := Vec4Mul(a.Value(), b.w);
  }

  /** matrix_mul with both operands copied before the first write: the
    * product is right whichever operand res is. */
  method MatrixMulIntoSnapshot(a: Matrix4, b: Matrix4, res: Matrix4)
    modifies res
    ensures res.Value() == MatrixMul(old(a.Value()), old(b.Value()))
  {
    var av, bv := a.Value(), b.Value();
    res.x := Vec4Mul(av, bv.x);
    res.y := Vec4Mul(av, bv.y);
    res.z := Vec4Mul(av, bv.z);
    res.w := Vec4Mul(av, bv.w);
  }
}
