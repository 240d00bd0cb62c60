// graphene_matrix_t: one simd4x4f value. The initialisers, translate, scale
// and the skews overwrite it in place (methods of MatrixStruct); the
// getters, comparisons and transform_bounds compute results.

module Matrices {

  import opened Common
  import P = Private
  import S = Simd
  import X = Simd4x4
  import V = Vectors
  import R = Rects
  import Pt = Points
  import P3 = Points3D

  type Matrix = X.Simd4x4f

  /** The sixteen floats graphene_matrix_init_identity copies. */
  const IdentityFloats: seq<real> :=
    [1.0, 0.0, 0.0, 0.0, 0.0, 1.0, 0.0, 0.0, 0.0, 0.0, 1.0, 0.0, 0.0, 0.0, 0.0, 1.0]

  /** graphene_matrix_is_identity through simd4x4f_is_identity, which is
    * not part of this model: taken to be exact equality with the identity. */
  predicate IsIdentity(m: Matrix) { m == X.Identity }

  /** graphene_simd4x4f_is_2d, not part of this model: the matrix has the
    * shape of a 2D affine transform, compared exactly. */
  predicate Is2D(m: Matrix)
  {
    m.x.z == 0.0 && m.x.w == 0.0 && m.y.z == 0.0 && m.y.w == 0.0 &&
    m.z == S.Simd4(0.0, 0.0, 1.0, 0.0) && m.w.z == 0.0 && m.w.w == 1.0
  }

  /** graphene_matrix_init_scale builds these rows. */
  function ScaleMatrix(x: real, y: real, z: real): Matrix { X.Scale(x, y, z) }

  /** graphene_matrix_init_translate: identity rows with the point in row w. */
  function TranslateMatrix(p: P3.Point3D): Matrix
  {
    X.Simd4x4f(S.Simd4(1.0, 0.0, 0.0, 0.0), S.Simd4(0.0, 1.0, 0.0, 0.0),
               S.Simd4(0.0, 0.0, 1.0, 0.0), S.Simd4(p.x, p.y, p.z, 1.0))
  }

  /** graphene_matrix_init_from_2d: (xx, yx), (xy, yy) and the offset
    * (x0, y0) in rows x, y and w. */
  function From2D(xx: real, yx: real, xy: real, yy: real, x0: real, y0: real): Matrix
  {
    X.Simd4x4f(S.Simd4(xx, yx, 0.0, 0.0), S.Simd4(xy, yy, 0.0, 0.0),
               S.Simd4(0.0, 0.0, 1.0, 0.0), S.Simd4(x0, y0, 0.0, 1.0))
  }

  /** The six affine coefficients graphene_matrix_to_2d reads. */
  datatype Affine2D = Affine2D(xx: real, yx: real, xy: real, yy: real, x0: real, y0: real)

  /** graphene_matrix_to_2d: false unless the matrix is 2D, otherwise the
    * x and y lanes of rows x, y and w (each written where its out-parameter
    * is not NULL). */
  function To2D(m: Matrix): (r: Option<Affine2D>)
    ensures r.Some? <==> Is2D(m)
    ensures r.Some? ==> From2D(r.value.xx, r.value.yx, r.value.xy, r.value.yy, r.value.x0, r.value.y0) == m
  {
    if !Is2D(m) then None
    else Some(Affine2D(m.x.x, m.x.y, m.y.x, m.y.y, m.w.x, m.w.y))
  }

  /** init_from_2d and to_2d are inverse. */
  lemma Affine2DRoundTrip(a: Affine2D, m: Matrix)
    ensures Is2D(From2D(a.xx, a.yx, a.xy, a.yy, a.x0, a.y0))
    ensures To2D(From2D(a.xx, a.yx, a.xy, a.yy, a.x0, a.y0)) == Some(a)
    ensures To2D(m).Some? <==> Is2D(m)
    ensures To2D(m).Some? ==>
      var b := To2D(m).value; From2D(b.xx, b.yx, b.xy, b.yy, b.x0, b.y0) == m
  {
  }

  /** graphene_matrix_get_row: row index_ (floats 4 index_ .. 4 index_ + 3
    * of the row-major layout), or the zero vector past 3. */
  function GetRow(m: Matrix, index: nat): (r: S.Simd4f)
    ensures index <= 3 ==> forall j | 0 <= j < 4 :: S.Get(r, j) == X.ToFloat(m)[4 * index + j]
    ensures index > 3 ==> r == S.Zero
  {
    if index <= 3 then X.Row(m, index) else S.Zero
  }

  /** graphene_matrix_get_value: 0 when row or column is past 3, otherwise
    * lane col of row row. */
  function GetValue(m: Matrix, row: nat, col: nat): (r: real)
    ensures row <= 3 && col <= 3 ==> r == X.ToFloat(m)[4 * row + col]
    ensures row > 3 || col > 3 ==> r == 0.0
  {
    if row > 3 || col > 3 then 0.0 else S.Get(X.Row(m, row), col)
  }

  /** get_value reads the lane of get_row, agrees with the row-major float
    * layout, and is 0 outside the matrix. */
  lemma GetValueIsRowLane(m: Matrix, row: nat, col: nat)
    ensures col <= 3 ==> GetValue(m, row, col) == S.Get(GetRow(m, row), col)
    ensures row <= 3 && col <= 3 ==> GetValue(m, row, col) == X.ToFloat(m)[4 * row + col]
    ensures row > 3 || col > 3 ==> GetValue(m, row, col) == 0.0
  {
  }

  /** get_x_translation and friends: lanes x, y, z of row w. */
  function GetTranslation(m: Matrix): P3.Point3D { P3.Point3D(m.w.x, m.w.y, m.w.z) }

  /** get_x_scale and friends: the first three diagonal entries. */
  function GetScale(m: Matrix): P3.Point3D { P3.Point3D(m.x.x, m.y.y, m.z.z) }

  /** The getters read back what init_translate and init_scale stored. */
  lemma GettersReadBack(p: P3.Point3D, x: real, y: real, z: real)
    ensures GetTranslation(TranslateMatrix(p)) == p
    ensures GetScale(ScaleMatrix(x, y, z)) == P3.Point3D(x, y, z)
    ensures GetTranslation(ScaleMatrix(x, y, z)) == P3.Point3D(0.0, 0.0, 0.0)
    ensures GetScale(TranslateMatrix(p)) == P3.Point3D(1.0, 1.0, 1.0)
  {
  }

  /** init_identity stores the identity, and to_float gives its floats back. */
  lemma IdentityFloatsRoundTrip()
    ensures IsIdentity(X.InitFromFloat(IdentityFloats))
    ensures X.ToFloat(X.Identity) == IdentityFloats
  {
    X.FloatRoundTrip(IdentityFloats, X.Identity);
    assert X.ToFloat(X.Identity) == IdentityFloats;
  }

  /** Scaling the identity by any factor other than 1 (the tests use 2)
    * leaves it no longer the identity. */
  lemma IdentityScaled(f: real)
    requires f != 1.0
    ensures !IsIdentity(X.MatrixMul(X.Identity, ScaleMatrix(f, f, f)))
  {
    X.MatrixMulIdentity(ScaleMatrix(f, f, f));
  }

  /** The zero translation and the unit scale are the identity. */
  lemma IdentityNeutral()
    ensures IsIdentity(TranslateMatrix(P3.Point3D(0.0, 0.0, 0.0)))
    ensures IsIdentity(ScaleMatrix(1.0, 1.0, 1.0))
  {
    assert ScaleMatrix(1.0, 1.0, 1.0) == X.Identity;
  }

  /** The skews add a multiple of one row to a later row; the other rows
    * stay, and a zero factor changes nothing. */
  function SkewedXY(m: Matrix, f: real): (r: Matrix)
    ensures r.x == m.x && r.z == m.z && r.w == m.w
    ensures r.y == S.Add(S.Mul(m.x, S.Splat(f)), m.y)
    ensures f == 0.0 ==> r == m
  {
    m.(y := S.Madd(m.x, S.Splat(f), m.y))
  }

  function SkewedXZ(m: Matrix, f: real): (r: Matrix)
    ensures r.x == m.x && r.y == m.y && r.w == m.w
    ensures r.z == S.Add(S.Mul(m.x, S.Splat(f)), m.z)
    ensures f == 0.0 ==> r == m
  {
    m.(z := S.Madd(m.x, S.Splat(f), m.z))
  }

  function SkewedYZ(m: Matrix, f: real): (r: Matrix)
    ensures r.x == m.x && r.y == m.y && r.w == m.w
    ensures r.z == S.Add(S.Mul(m.y, S.Splat(f)), m.z)
    ensures f == 0.0 ==> r == m
  {
    m.(z := S.Madd(m.y, S.Splat(f), m.z))
  }

  /** Each skew changes only its target row, to source * f + target, and a
    * zero factor changes nothing. */
  lemma SkewRows(m: Matrix, f: real)
    ensures SkewedXY(m, f).x == m.x && SkewedXY(m, f).z == m.z && SkewedXY(m, f).w == m.w
    ensures SkewedXY(m, f).y == S.Add(S.Mul(m.x, S.Splat(f)), m.y)
    ensures SkewedXZ(m, f).x == m.x && SkewedXZ(m, f).y == m.y && SkewedXZ(m, f).w == m.w
    ensures SkewedXZ(m, f).z == S.Add(S.Mul(m.x, S.Splat(f)), m.z)
    ensures SkewedYZ(m, f).x == m.x && SkewedYZ(m, f).y == m.y && SkewedYZ(m, f).w == m.w
    ensures SkewedYZ(m, f).z == S.Add(S.Mul(m.y, S.Splat(f)), m.z)
    ensures SkewedXY(m, 0.0) == m && SkewedXZ(m, 0.0) == m && SkewedYZ(m, 0.0) == m
  {
  }

  /** skew_xy of the identity shears x into y. */
  lemma SkewIdentity(f: real)
    ensures SkewedXY(X.Identity, f).y == S.Simd4(f, 1.0, 0.0, 0.0)
  {
  }

  /** translate and scale of the identity are init_translate and
    * init_scale. */
  lemma TranslateScaleIdentity(p: P3.Point3D, x: real, y: real, z: real)
    ensures X.MatrixMul(X.Identity, X.Translation(p.x, p.y, p.z)) == TranslateMatrix(p)
    ensures X.MatrixMul(X.Identity, X.Scale(x, y, z)) == ScaleMatrix(x, y, z)
  {
    X.MatrixMulIdentity(X.Translation(p.x, p.y, p.z));
    X.MatrixMulIdentity(X.Scale(x, y, z));
  }

  /** Translating by zero and scaling by one change nothing. */
  lemma TranslateScaleNeutral(m: Matrix)
    ensures X.MatrixMul(m, X.Translation(0.0, 0.0, 0.0)) == m
    ensures X.MatrixMul(m, X.Scale(1.0, 1.0, 1.0)) == m
  {
    X.MatrixMulIdentity(m);
    assert X.Translation(0.0, 0.0, 0.0) == X.Identity;
    assert X.Scale(1.0, 1.0, 1.0) == X.Identity;
  }

  // ----- transform_bounds -----

  /** One corner through TRANSFORM_POINT: (x, y, 0, 1) by vec4_mul. */
  function TransformPoint(m: Matrix, p: Pt.Point): Pt.Point
  {
    var s := X.Vec4Mul(m, S.Simd4(p.x, p.y, 0.0, 1.0));
    Pt.Point(s.x, s.y)
  }

  /** graphene_matrix_transform_bounds: the four corners transformed, then
    * min_val and max_val of their x and y lanes, stored by rect_init. */
  function TransformBounds(m: Matrix, r: R.Rect): (b: R.Rect)
    ensures R.IsNormal(b)
  {
    var p0, p1 := TransformPoint(m, R.TopLeft(r)), TransformPoint(m, R.TopRight(r));
    var p2, p3 := TransformPoint(m, R.BottomRight(r)), TransformPoint(m, R.BottomLeft(r));
    var vx, vy := S.Simd4(p0.x, p1.x, p2.x, p3.x), S.Simd4(p0.y, p1.y, p2.y, p3.y);
    var minX, minY := S.MinVal(vx).x, S.MinVal(vy).x;
    var maxX, maxY := S.MaxVal(vx).x, S.MaxVal(vy).x;
    R.Normalize(R.MakeRect(minX, minY, maxX - minX, maxY - minY))
  }

  /** v is the x (or, with onY, the y) of one of the four transformed
    * corners. */
  predicate CornerCoordinate(m: Matrix, r: R.Rect, v: real, onY: bool)
  {
    var p0, p1 := TransformPoint(m, R.TopLeft(r)), TransformPoint(m, R.TopRight(r));
    var p2, p3 := TransformPoint(m, R.BottomRight(r)), TransformPoint(m, R.BottomLeft(r));
    if onY then v == p0.y || v == p1.y || v == p2.y || v == p3.y
    else v == p0.x || v == p1.x || v == p2.x || v == p3.x
  }

  /** The bounds contain the four transformed corners, and each of their
    * edges passes through one of them, so no smaller rectangle contains
    * them all. */
  lemma TransformBoundsContains(m: Matrix, r: R.Rect)
    ensures R.ContainsPoint(TransformBounds(m, r), TransformPoint(m, R.TopLeft(r)))
    ensures R.ContainsPoint(TransformBounds(m, r), TransformPoint(m, R.TopRight(r)))
    ensures R.ContainsPoint(TransformBounds(m, r), TransformPoint(m, R.BottomRight(r)))
    ensures R.ContainsPoint(TransformBounds(m, r), TransformPoint(m, R.BottomLeft(r)))
    ensures CornerCoordinate(m, r, TransformBounds(m, r).origin.x, false)
    ensures CornerCoordinate(m, r, R.Right(TransformBounds(m, r)), false)
    ensures CornerCoordinate(m, r, TransformBounds(m, r).origin.y, true)
    ensures CornerCoordinate(m, r, R.Bottom(TransformBounds(m, r)), true)
  {
  }

  lemma TransformPointIdentity(p: Pt.Point)
    ensures TransformPoint(X.Identity, p) == p
  {
    X.Vec4MulIsProduct(X.Identity, S.Simd4(p.x, p.y, 0.0, 1.0));
    X.RowTimesIdentity(S.Simd4(p.x, p.y, 0.0, 1.0));
  }

  lemma TransformBoundsIdentity(r: R.Rect)
    ensures TransformBounds(X.Identity, r) == R.Normalize(r)
  {
    var n := R.Normalize(r);
    TransformPointIdentity(R.TopLeft(r));
    TransformPointIdentity(R.TopRight(r));
    TransformPointIdentity(R.BottomRight(r));
    TransformPointIdentity(R.BottomLeft(r));
    var x0, x1, y0, y1 := n.origin.x, R.Right(n), n.origin.y, R.Bottom(n);
    assert x0 <= x1 && y0 <= y1;
    var vx, vy := S.Simd4(x0, x1, x1, x0), S.Simd4(y0, y0, y1, y1);
    assert S.MinVal(vx).x == x0 && S.MaxVal(vx).x == x1;
    assert S.MinVal(vy).x == y0 && S.MaxVal(vy).x == y1;
  }

  // ----- comparisons -----

  /** What graphene_matrix_near decides: identical pointers are near, one
    * NULL is not, otherwise every row pair must be vec4-near. */
  predicate NearSpec(p: PtrPair<Matrix>, epsilon: real)
  {
    match p
    case BothNull => true
    case Same(_) => true
    case OneNull => false
    case Distinct(a, b) => forall i :: 0 <= i < 4 ==> V.Vec4Near(X.Row(a, i), X.Row(b, i), epsilon)
  }

  /** graphene_matrix_near: the loop over the rows returns false at the
    * first row pair that is not near. */
  method Near(p: PtrPair<Matrix>, epsilon: real) returns (r: bool)
    ensures r == NearSpec(p, epsilon)
  {
    if p.BothNull? || p.Same? {
      return true;
    }
    if p.OneNull? {
      return false;
    }
    var i := 0;
    while i < 4
      invariant 0 <= i <= 4
      invariant forall k :: 0 <= k < i ==> V.Vec4Near(X.Row(p.a, k), X.Row(p.b, k), epsilon)
    {
      if !V.Vec4Near(GetRow(p.a, i), GetRow(p.b, i), epsilon) {
        return false;
      }
      i := i + 1;
    }
    return true;
  }

  /** graphene_matrix_equal: near with FLT_EPSILON. */
  method Equal(p: PtrPair<Matrix>) returns (r: bool)
    ensures r == NearSpec(p, P.FltEpsilon)
  {
    r := Near(p, P.FltEpsilon);
  }

  /** graphene_matrix_equal_fast: a byte comparison, which on the model's
    * values is equality. */
  predicate EqualFast(a: Matrix, b: Matrix) { a == b }

  /** Near on two matrices is near on each of their four rows. */
  lemma NearSpecRows(a: Matrix, b: Matrix, epsilon: real)
    ensures NearSpec(Distinct(a, b), epsilon) <==>
      V.Vec4Near(a.x, b.x, epsilon) && V.Vec4Near(a.y, b.y, epsilon) &&
      V.Vec4Near(a.z, b.z, epsilon) && V.Vec4Near(a.w, b.w, epsilon)
  {
    assert X.Row(a, 0) == a.x && X.Row(a, 1) == a.y && X.Row(a, 2) == a.z && X.Row(a, 3) == a.w;
    assert X.Row(b, 0) == b.x && X.Row(b, 1) == b.y && X.Row(b, 2) == b.z && X.Row(b, 3) == b.w;
  }

  /** A matrix is near a copy of itself exactly when epsilon is not 0. */
  lemma NearSelf(a: Matrix, epsilon: real)
    ensures NearSpec(Distinct(a, a), epsilon) <==> epsilon != 0.0
    ensures EqualFast(a, a) && NearSpec(Distinct(a, a), P.FltEpsilon)
  {
    NearSpecRows(a, a, epsilon);
    NearSpecRows(a, a, P.FltEpsilon);
    V.Vec4NearSelf(a.x, epsilon);
    V.Vec4NearSelf(a.x, P.FltEpsilon);
    V.Vec4NearSelf(a.y, P.FltEpsilon);
    V.Vec4NearSelf(a.z, P.FltEpsilon);
    V.Vec4NearSelf(a.w, P.FltEpsilon);
    if epsilon != 0.0 {
      V.Vec4NearSelf(a.y, epsilon);
      V.Vec4NearSelf(a.z, epsilon);
      V.Vec4NearSelf(a.w, epsilon);
    }
  }

  /** Nearness of matrices is symmetric. */
  lemma NearSymmetric(a: Matrix, b: Matrix, epsilon: real)
    ensures NearSpec(Distinct(a, b), epsilon) <==> NearSpec(Distinct(b, a), epsilon)
  {
    NearSpecRows(a, b, epsilon);
    NearSpecRows(b, a, epsilon);
    V.Vec4NearSymmetric(a.x, b.x, epsilon);
    V.Vec4NearSymmetric(a.y, b.y, epsilon);
    V.Vec4NearSymmetric(a.z, b.z, epsilon);
    V.Vec4NearSymmetric(a.w, b.w, epsilon);
  }

  // ----- the matrix updated in place -----

  class MatrixStruct {
    var value: Matrix

    constructor (m: Matrix)
      ensures value == m
    {
      value := m;
    }

    method InitIdentity()
      modifies this
      ensures IsIdentity(value)
    {
      value := X.InitFromFloat(IdentityFloats);
    }

    /** graphene_matrix_init_from_float: sixteen floats, row-major. */
    method InitFromFloat(f: seq<real>)
      requires |f| >= 16
      modifies this
      ensures value == X.InitFromFloat(f) && X.ToFloat(value) == f[..16]
    {
      value := X.InitFromFloat(f);
      X.FloatRoundTrip(f, value);
    }

    /** graphene_matrix_init_from_vec4: the four vectors as rows in order. */
    method InitFromVec4(v0: S.Simd4f, v1: S.Simd4f, v2: S.Simd4f, v3: S.Simd4f)
      modifies this
      ensures GetRow(value, 0) == v0 && GetRow(value, 1) == v1
      ensures GetRow(value, 2) == v2 && GetRow(value, 3) == v3
    {
      value := X.Simd4x4f(v0, v1, v2, v3);
    }

    method InitScale(x: real, y: real, z: real)
      modifies this
      ensures value == ScaleMatrix(x, y, z)
    {
      value := X.Simd4x4f(S.Simd4(x, 0.0, 0.0, 0.0), S.Simd4(0.0, y, 0.0, 0.0),
                          S.Simd4(0.0, 0.0, z, 0.0), S.Simd4(0.0, 0.0, 0.0, 1.0));
    }

    method InitTranslate(p: P3.Point3D)
      modifies this
      ensures value == TranslateMatrix(p)
    {
      value := TranslateMatrix(p);
    }

    method InitFrom2D(xx: real, yx: real, xy: real, yy: real, x0: real, y0: real)
      modifies this
      ensures value == From2D(xx, yx, xy, yy, x0, y0)
      ensures To2D(value) == Some(Affine2D(xx, yx, xy, yy, x0, y0))
    {
      value := From2D(xx, yx, xy, yy, x0, y0);
    }

    /** graphene_matrix_translate: matrix_mul with res aliasing the first
      * operand, which is still the product for a translation. */
    method Translate(pos: P3.Point3D)
      modifies this
      ensures value == X.MatrixMul(old(value), X.Translation(pos.x, pos.y, pos.z))
    {
      var t := X.Translation(pos.x, pos.y, pos.z);
      X.AliasedMulSafeForTranslation(value, pos.x, pos.y, pos.z);
      value := X.AliasedMul(value, t);
    }

    /** graphene_matrix_scale: the same aliased multiply by a scale matrix. */
    method Scale(fx: real, fy: real, fz: real)
      modifies this
      ensures value == X.MatrixMul(old(value), X.Scale(fx, fy, fz))
    {
      var s := X.Scale(fx, fy, fz);
      X.AliasedMulSafeForScale(value, fx, fy, fz);
      value := X.AliasedMul(value, s);
    }

    method SkewXY(f: real)
      modifies this
      ensures value == SkewedXY(old(value), f)
    {
      var mx, my := value.x, value.y;
      value := value.(y := S.Madd(mx, S.Splat(f), my));
    }

    method SkewXZ(f: real)
      modifies this
      ensures value == SkewedXZ(old(value), f)
    {
      var mx, mz := value.x, value.z;
      value := value.(z := S.Madd(mx, S.Splat(f), mz));
    }

    method SkewYZ(f: real)
      modifies this
      ensures value == SkewedYZ(old(value), f)
    {
      var my, mz := value.y, value.z;
      value := value.(z := S.Madd(my, S.Splat(f), mz));
    }
  }
}
