// graphene_euler_t: three rotation angles, stored in radians, and the order
// in which they apply. The conversions switch over the effective order; only
// the six legacy orders have an arm, and the sine, cosine, arc sine and arc
// tangent they call are parameters of this model.

module Eulers {

  import opened Common
  import P = Private
  import S = Simd
  import X = Simd4x4
  import V = Vectors
  import M = Matrices
  import Q = Quaternions

  /** graphene_euler_order_t: DEFAULT, the six legacy orders, then the
    * static (S) and relative (R) axis orders. */
  datatype Order =
    | Default
    | XYZ | YZX | ZXY | XZY | YXZ | ZYX
    | SXYZ | SXYX | SXZY | SXZX | SYZX | SYZY | SYXZ | SYXY | SZXY | SZXZ | SZYX | SZYZ
    | RZYX | RXYX | RYZX | RXZX | RXZY | RYZY | RZXY | RYXY | RYXZ | RZXZ | RXYZ | RZYZ

  /** The orders the conversions have a switch arm for. */
  predicate Legacy(o: Order)
  {
    o.XYZ? || o.YZX? || o.ZXY? || o.XZY? || o.YXZ? || o.ZYX?
  }

  datatype Euler = Euler(angles: V.Vec3, order: Order)

  /** The trigonometric functions of the C library the conversions call. */
  datatype Trig = Trig(sin: real -> real, cos: real -> real, asin: real -> real, atan2: (real, real) -> real)

  // ----- initialisers and getters -----

  /** graphene_euler_init_internal: angles in radians, order as given. */
  function InitInternal(radX: real, radY: real, radZ: real, order: Order): Euler
  {
    Euler(V.Vec3Init(radX, radY, radZ), order)
  }

  /** graphene_euler_init: degrees, converted to radians, order DEFAULT. */
  function Init(x: real, y: real, z: real): Euler
  {
    InitInternal(P.DegToRad(x), P.DegToRad(y), P.DegToRad(z), Default)
  }

  /** graphene_euler_init_with_order. */
  function InitWithOrder(x: real, y: real, z: real, order: Order): Euler
  {
    InitInternal(P.DegToRad(x), P.DegToRad(y), P.DegToRad(z), order)
  }

  /** graphene_euler_init_from_vec3: the vector holds degrees; NULL gives
    * zero angles. */
  function InitFromVec3(v: Option<V.Vec3>, order: Order): Euler
  {
    Euler(if v.Some? then V.Scale(v.value, P.Pi / 180.0) else V.Vec3Zero, order)
  }

  /** graphene_euler_init_from_euler: a copy; NULL is init (0, 0, 0). */
  function InitFromEuler(src: Option<Euler>): Euler
  {
    if src.None? then Init(0.0, 0.0, 0.0) else src.value
  }

  /** graphene_euler_get_order: DEFAULT stands for XYZ. */
  function GetOrder(e: Euler): (r: Order)
    ensures r != Default
    ensures e.order != Default ==> r == e.order
  {
    if e.order == Default then XYZ else e.order
  }

  /** graphene_euler_get_x, _y and _z: the angles back in degrees. */
  function GetX(e: Euler): real { P.RadToDeg(e.angles.x) }

  function GetY(e: Euler): real { P.RadToDeg(e.angles.y) }

  function GetZ(e: Euler): real { P.RadToDeg(e.angles.z) }

  /** graphene_euler_to_vec3: the angles in degrees. */
  function ToVec3(e: Euler): V.Vec3 { V.Scale(e.angles, 180.0 / P.Pi) }

  // ----- conversions -----

  /** The angles init_from_matrix extracts for each order, from the upper
    * 3x3 block (mRC is the entry in row R, column C of to_float's
    * row-major array). */
  function AnglesFromMatrix(m: M.Matrix, order: Order, t: Trig): V.Vec3
  {
    var m11, m12, m13 := m.x.x, m.x.y, m.x.z;
    var m21, m22, m23 := m.y.x, m.y.y, m.y.z;
    var m31, m32, m33 := m.z.x, m.z.y, m.z.z;
    match order
    case XYZ =>
      var y := t.asin(P.Clamp(m13, -1.0, 1.0));
      if Abs(m13) < 1.0 then V.Vec3Init(t.atan2(-1.0 * m23, m33), y, t.atan2(-1.0 * m12, m11))
      else V.Vec3Init(t.atan2(m32, m22), y, 0.0)
    case YXZ =>
      var x := t.asin(-1.0 * P.Clamp(m23, -1.0, 1.0));
      if Abs(m23) < 1.0 then V.Vec3Init(x, t.atan2(m13, m33), t.atan2(m21, m22))
      else V.Vec3Init(x, t.atan2(-1.0 * m31, m11), 0.0)
    case ZXY =>
      var x := t.asin(P.Clamp(m32, -1.0, 1.0));
      if Abs(m32) < 1.0 then V.Vec3Init(x, t.atan2(-1.0 * m31, m33), t.atan2(-1.0 * m12, m22))
      else V.Vec3Init(x, 0.0, t.atan2(m21, m11))
    case ZYX =>
      var y := t.asin(-1.0 * P.Clamp(m31, -1.0, 1.0));
      if Abs(m31) < 1.0 then V.Vec3Init(t.atan2(m32, m33), y, t.atan2(m21, m11))
      else V.Vec3Init(0.0, y, t.atan2(-1.0 * m12, m22))
    case YZX =>
      var z := t.asin(P.Clamp(m21, -1.0, 1.0));
      if Abs(m21) < 1.0 then V.Vec3Init(t.atan2(-1.0 * m23, m22), t.atan2(-1.0 * m31, m11), z)
      else V.Vec3Init(0.0, t.atan2(m13, m33), z)
    case XZY =>
      var z := t.asin(-1.0 * P.Clamp(m12, -1.0, 1.0));
      if Abs(m12) < 1.0 then V.Vec3Init(t.atan2(m32, m22), t.atan2(m13, m11), z)
      else V.Vec3Init(t.atan2(-1.0 * m23, m33), 0.0, z)
    case _ => V.Vec3Init(0.0, 0.0, 0.0)
  }

  /** graphene_euler_init_from_matrix: NULL gives zero angles; otherwise the
    * order is stored and the angles come from the arm of the effective
    * order. */
  function InitFromMatrix(m: Option<M.Matrix>, order: Order, t: Trig): (r: Euler)
    ensures r.order == order
    ensures m.None? || (order != Default && !Legacy(order)) ==> r.angles == V.Vec3Zero
  {
    if m.None? then InitWithOrder(0.0, 0.0, 0.0, order)
    else Euler(AnglesFromMatrix(m.value, GetOrder(Euler(V.Vec3Zero, order)), t), order)
  }

  /** The angles init_from_quaternion computes for each order. */
  function AnglesFromQuaternion(q: Q.Quaternion, order: Order, t: Trig): V.Vec3
  {
    var sqx, sqy, sqz, sqw := q.x * q.x, q.y * q.y, q.z * q.z, q.w * q.w;
    match order
    case XYZ =>
      V.Vec3Init(t.atan2(2.0 * (q.x * q.w - q.y * q.z), sqw - sqx - sqy + sqz),
                 t.asin(P.Clamp(2.0 * (q.x * q.z + q.y * q.w), -1.0, 1.0)),
                 t.atan2(2.0 * (q.z * q.w - q.x * q.y), sqw + sqx - sqy - sqz))
    case YXZ =>
      V.Vec3Init(t.asin(P.Clamp(2.0 * (q.x * q.w - q.y * q.z), -1.0, 1.0)),
                 t.atan2(2.0 * (q.x * q.z + q.y * q.w), sqw - sqx - sqy + sqz),
                 t.atan2(2.0 * (q.x * q.y + q.z * q.w), sqw - sqx + sqy - sqz))
    case ZXY =>
      V.Vec3Init(t.asin(P.Clamp(2.0 * (q.x * q.w + q.y * q.z), -1.0, 1.0)),
                 t.atan2(2.0 * (q.y * q.w - q.z * q.x), sqw - sqx - sqy + sqz),
                 t.atan2(2.0 * (q.z * q.w - q.x * q.y), sqw - sqx + sqy - sqz))
    case ZYX =>
      V.Vec3Init(t.atan2(2.0 * (q.x * q.w + q.z * q.y), sqw - sqx - sqy + sqz),
                 t.asin(P.Clamp(2.0 * (q.y * q.w - q.x * q.z), -1.0, 1.0)),
                 t.atan2(2.0 * (q.x * q.y + q.z * q.w), sqw + sqx - sqy - sqz))
    case YZX =>
      V.Vec3Init(t.atan2(2.0 * (q.x * q.w - q.z * q.y), sqw - sqx + sqy - sqz),
                 t.atan2(2.0 * (q.y * q.w - q.x * q.z), sqw + sqx - sqy - sqz),
                 t.asin(P.Clamp(2.0 * (q.x * q.y + q.z * q.w), -1.0, 1.0)))
    case XZY =>
      V.Vec3Init(t.atan2(2.0 * (q.x * q.w + q.y * q.z), sqw - sqx + sqy - sqz),
                 t.atan2(2.0 * (q.x * q.z + q.y * q.w), sqw + sqx - sqy - sqz),
                 t.asin(P.Clamp(2.0 * (q.z * q.w - q.x * q.y), -1.0, 1.0)))
    case _ => V.Vec3Init(0.0, 0.0, 0.0)
  }

  /** graphene_euler_init_from_quaternion: NULL gives zero angles. */
  function InitFromQuaternion(q: Option<Q.Quaternion>, order: Order, t: Trig): (r: Euler)
    ensures r.order == order
    ensures q.None? || (order != Default && !Legacy(order)) ==> r.angles == V.Vec3Zero
  {
    if q.None? then InitWithOrder(0.0, 0.0, 0.0, order)
    else Euler(AnglesFromQuaternion(q.value, GetOrder(Euler(V.Vec3Zero, order)), t), order)
  }

  /** The switch of graphene_euler_to_matrix: the rotation for each legacy
    * order, written with c1, s1 (angle x), c2, s2 (angle y) and c3, s3
    * (angle z); any other order gives the identity. */
  function Rotation(order: Order, c1: real, s1: real, c2: real, s2: real, c3: real, s3: real): M.Matrix
  {
    var w := S.Simd4(0.0, 0.0, 0.0, 1.0);
    match order
    case XYZ =>
      X.Simd4x4f(S.Simd4(c3 * c2, s3 * c1 + c3 * s2 * s1, s3 * s1 - c3 * s2 * c1, 0.0),
                 S.Simd4(-(s3 * c2), c3 * c1 - s3 * s2 * s1, c3 * s1 + s3 * s2 * c1, 0.0),
                 S.Simd4(s2, -(c2 * s1), c2 * c1, 0.0), w)
    case YXZ =>
      X.Simd4x4f(S.Simd4(c3 * c1 + s3 * s2 * s1, s3 * c2, -(c3 * s1) + s3 * s2 * c1, 0.0),
                 S.Simd4(-(s3 * c1) + c3 * s2 * s1, c3 * c2, s3 * s1 + c3 * s2 * c1, 0.0),
                 S.Simd4(c2 * s1, -s2, c2 * c1, 0.0), w)
    case ZXY =>
      X.Simd4x4f(S.Simd4(c3 * c1 - s3 * s2 * s1, c3 * s1 + s3 * s2 * c1, -(s3 * c2), 0.0),
                 S.Simd4(-(c2 * s1), c2 * c1, s2, 0.0),
                 S.Simd4(s3 * c1 + c3 * s2 * s1, s3 * s1 - c3 * s2 * c1, c3 * c2, 0.0), w)
    case ZYX =>
      X.Simd4x4f(S.Simd4(c2 * c1, c2 * s1, -s2, 0.0),
                 S.Simd4(s3 * s2 * c1 - c3 * s1, s3 * s2 * s1 + c3 * c1, s3 * c2, 0.0),
                 S.Simd4(c3 * s2 * c1 + s3 * s1, c3 * s2 * s1 - s3 * c1, c3 * c2, 0.0), w)
    case YZX =>
      X.Simd4x4f(S.Simd4(c2 * c1, s2, -(c2 * s1), 0.0),
                 S.Simd4(-(c3 * s2 * c1) + s3 * s1, c3 * c2, c3 * s2 * s1 + s3 * c1, 0.0),
                 S.Simd4(s3 * s2 * c1 + c3 * s1, -(s3 * c2), -(s3 * s2 * s1) + c3 * c1, 0.0), w)
    case XZY =>
      X.Simd4x4f(S.Simd4(c3 * c2, c3 * s2 * c1 + s3 * s1, c3 * s2 * s1 - s3 * c1, 0.0),
                 S.Simd4(-s2, c2 * c1, c2 * s1, 0.0),
                 S.Simd4(s3 * c2, s3 * s2 * c1 - c3 * s1, s3 * s2 * s1 + c3 * c1, 0.0), w)
    case _ => X.Identity
  }

  /** graphene_euler_to_matrix as written: graphene_sincos takes the angle,
    * then the sine output, then the cosine output, but the calls pass &c1,
    * &s1 (and likewise for y and z), so every "cosine" holds the sine and
    * every "sine" the cosine: it is the intended conversion run with sine
    * and cosine exchanged. */
  function ToMatrixAsWritten(e: Euler, t: Trig): (r: M.Matrix)
    ensures r == ToMatrix(e, Trig(t.cos, t.sin, t.asin, t.atan2))
  {
    Rotation(GetOrder(e), t.sin(e.angles.x), t.cos(e.angles.x),
             t.sin(e.angles.y), t.cos(e.angles.y), t.sin(e.angles.z), t.cos(e.angles.z))
  }

  /** graphene_euler_to_matrix as intended: c1, s1 are the cosine and sine of
    * angle x, and so on; the rest of the model uses this one. */
  function ToMatrix(e: Euler, t: Trig): (r: M.Matrix)
    ensures r.w == S.Simd4(0.0, 0.0, 0.0, 1.0)
    ensures e.order != Default && !Legacy(e.order) ==> r == X.Identity
  {
    Rotation(GetOrder(e), t.cos(e.angles.x), t.sin(e.angles.x),
             t.cos(e.angles.y), t.sin(e.angles.y), t.cos(e.angles.z), t.sin(e.angles.z))
  }

  // ----- equality -----

  /** euler_equal: vec3-equal angles and the same stored order. */
  predicate EulerEqual(a: Euler, b: Euler)
  {
    V.Vec3EqualValues(a.angles, b.angles) && a.order == b.order
  }

  /** graphene_euler_equal. */
  function Equal(p: PtrPair<Euler>): bool
  {
    PointerEqual(p, EulerEqual)
  }

  // ----- properties -----

  /** init stores radians and the getters give the degrees back; the order
    * is DEFAULT, read as XYZ. */
  lemma InitRoundTrip(x: real, y: real, z: real, order: Order)
    ensures GetX(Init(x, y, z)) == x && GetY(Init(x, y, z)) == y && GetZ(Init(x, y, z)) == z
    ensures Init(x, y, z).order == Default && GetOrder(Init(x, y, z)) == XYZ
    ensures ToVec3(InitWithOrder(x, y, z, order)) == V.Vec3Init(x, y, z)
    ensures InitFromVec3(Some(ToVec3(InitWithOrder(x, y, z, order))), order) == InitWithOrder(x, y, z, order)
  {
    P.DegRadRoundTrip(x);
    P.DegRadRoundTrip(y);
    P.DegRadRoundTrip(z);
    var e := InitWithOrder(x, y, z, order);
    var v := ToVec3(e);
    assert v == V.Vec3Init(x, y, z);
    assert V.Scale(v, P.Pi / 180.0) == e.angles;
  }

  /** The init test: init (0, 0, 0) reads back 0 on every axis. */
  lemma InitZero()
    ensures GetX(Init(0.0, 0.0, 0.0)) == 0.0 && GetY(Init(0.0, 0.0, 0.0)) == 0.0 && GetZ(Init(0.0, 0.0, 0.0)) == 0.0
  {
  }

  /** Every NULL source gives zero angles with the requested order (DEFAULT
    * for init_from_euler), and init_from_euler copies a given source. */
  lemma NullSources(order: Order, t: Trig, src: Euler)
    ensures InitFromMatrix(None, order, t) == Euler(V.Vec3Zero, order)
    ensures InitFromQuaternion(None, order, t) == Euler(V.Vec3Zero, order)
    ensures InitFromVec3(None, order) == Euler(V.Vec3Zero, order)
    ensures InitFromEuler(None) == Euler(V.Vec3Zero, Default)
    ensures InitFromEuler(Some(src)) == src
  {
  }

  /** The static and relative orders have no arm: init_from_matrix and
    * init_from_quaternion keep the angles at zero and to_matrix gives the
    * identity, whatever the input. */
  lemma NewOrdersFallThrough(m: M.Matrix, q: Q.Quaternion, order: Order, angles: V.Vec3, t: Trig)
    requires order != Default && !Legacy(order)
    ensures InitFromMatrix(Some(m), order, t) == Euler(V.Vec3Zero, order)
    ensures InitFromQuaternion(Some(q), order, t) == Euler(V.Vec3Zero, order)
    ensures ToMatrix(Euler(angles, order), t) == X.Identity
  {
  }

  /** The DEFAULT order converts as XYZ in every direction. */
  lemma DefaultIsXYZ(m: M.Matrix, q: Q.Quaternion, angles: V.Vec3, t: Trig)
    ensures InitFromMatrix(Some(m), Default, t).angles == InitFromMatrix(Some(m), XYZ, t).angles
    ensures InitFromQuaternion(Some(q), Default, t).angles == InitFromQuaternion(Some(q), XYZ, t).angles
    ensures ToMatrix(Euler(angles, Default), t) == ToMatrix(Euler(angles, XYZ), t)
  {
  }

  /** A trigonometry with sin 0 = 0 and cos 0 = 1. */
  predicate ZeroAngleTrig(t: Trig)
  {
    t.sin(0.0) == 0.0 && t.cos(0.0) == 1.0
  }

  /** With the intended sine and cosine, a rotation by zero angles is the
    * identity in every order, and every rotation matrix is affine (w row
    * (0, 0, 0, 1)). */
  lemma ZeroAnglesIdentity(order: Order, angles: V.Vec3, t: Trig)
    requires ZeroAngleTrig(t)
    ensures ToMatrix(Euler(V.Vec3Zero, order), t) == X.Identity
    ensures ToMatrix(Euler(angles, order), t).w == S.Simd4(0.0, 0.0, 0.0, 1.0)
  {
  }

  /** The exchange shows at zero angles: with sin 0 = 0 and cos 0 = 1, the
    * XYZ matrix as written has rows (0, 0, 1), (0, -1, 0), (1, 0, 0) instead
    * of the identity. */
  lemma ZeroAnglesAsWritten(t: Trig)
    requires ZeroAngleTrig(t)
    ensures ToMatrixAsWritten(Euler(V.Vec3Zero, XYZ), t)
         == X.Simd4x4f(S.Simd4(0.0, 0.0, 1.0, 0.0), S.Simd4(0.0, -1.0, 0.0, 0.0),
                       S.Simd4(1.0, 0.0, 0.0, 0.0), S.Simd4(0.0, 0.0, 0.0, 1.0))
    ensures ToMatrixAsWritten(Euler(V.Vec3Zero, XYZ), t) != X.Identity
  {
  }

  /** An arc sine and arc tangent with asin 0 = 0 and atan2(0, 1) = 0. */
  predicate ZeroInverseTrig(t: Trig)
  {
    t.asin(0.0) == 0.0 && t.atan2(0.0, 1.0) == 0.0
  }

  /** Reading the identity matrix back gives zero angles in every order, so
    * zero angles survive to_matrix followed by init_from_matrix. */
  lemma IdentityGivesZeroAngles(order: Order, t: Trig)
    requires ZeroAngleTrig(t) && ZeroInverseTrig(t)
    ensures InitFromMatrix(Some(X.Identity), order, t) == Euler(V.Vec3Zero, order)
    ensures InitFromMatrix(Some(ToMatrix(Euler(V.Vec3Zero, order), t)), order, t) == Euler(V.Vec3Zero, order)
  {
    ZeroAnglesIdentity(order, V.Vec3Zero, t);
  }

  /** The identity quaternion (0, 0, 0, 1) gives zero angles in every
    * order. */
  lemma IdentityQuaternionGivesZeroAngles(order: Order, t: Trig)
    requires ZeroInverseTrig(t)
    ensures InitFromQuaternion(Some(Q.Init(0.0, 0.0, 0.0, 1.0)), order, t) == Euler(V.Vec3Zero, order)
  {
  }

  /** equal compares the stored order: DEFAULT and XYZ differ although
    * get_order reads both as XYZ. Identical pointers are equal, a NULL
    * against an Euler is not, and the comparison is symmetric. */
  lemma EqualProperties(a: Euler, b: Euler)
    ensures GetOrder(Init(0.0, 0.0, 0.0)) == GetOrder(InitWithOrder(0.0, 0.0, 0.0, XYZ))
    ensures !Equal(Distinct(Init(0.0, 0.0, 0.0), InitWithOrder(0.0, 0.0, 0.0, XYZ)))
    ensures Equal(Same(a)) && Equal(BothNull) && !Equal(OneNull) && Equal(Distinct(a, a))
    ensures Equal(Distinct(a, b)) <==> Equal(Distinct(b, a))
  {
    V.Vec3EqualProperties(a.angles, b.angles);
  }
}
