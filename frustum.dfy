// graphene_frustum_t: six clipping planes in an array. A point is inside when
// it is on the non-negative side of every plane; a sphere meets the frustum
// when its centre is no further than its radius behind any plane.

module Frustums {

  import opened Common
  import V = Vectors
  import P3 = Points3D
  import Pl = Planes

  const NClipPlanes: nat := 6

  /** graphene_sphere_t as the frustum reads it: a centre and a radius. */
  datatype Sphere = Sphere(center: V.Vec3, radius: real)

  /** Every plane has the point on its non-negative side. */
  predicate ContainsAll(planes: seq<Pl.Plane>, point: P3.Point3D)
  {
    forall i :: 0 <= i < |planes| ==> Pl.Distance(planes[i], point) >= 0.0
  }

  /** No plane has the sphere's centre more than the radius behind it. */
  predicate IntersectsAll(planes: seq<Pl.Plane>, sphere: Sphere)
  {
    forall i :: 0 <= i < |planes| ==>
      Pl.Distance(planes[i], P3.InitFromVec3(sphere.center)) >= -sphere.radius
  }

  /** A sphere whose centre is inside meets the frustum whenever its radius
    * is not negative; with a negative radius it need not. */
  lemma ContainsImpliesIntersects(planes: seq<Pl.Plane>, sphere: Sphere)
    requires sphere.radius >= 0.0
    ensures ContainsAll(planes, P3.InitFromVec3(sphere.center)) ==> IntersectsAll(planes, sphere)
  {
  }

  /** A sphere of radius 0 meets the frustum exactly when its centre is
    * inside. */
  lemma PointSphere(planes: seq<Pl.Plane>, center: V.Vec3)
    ensures IntersectsAll(planes, Sphere(center, 0.0)) <==> ContainsAll(planes, P3.InitFromVec3(center))
  {
  }

  /** A point strictly inside one plane is outside once that plane is
    * negated: the frustum with a flipped plane does not contain it. */
  lemma NegatedPlaneExcludes(planes: seq<Pl.Plane>, i: nat, point: P3.Point3D)
    requires i < |planes|
    requires Pl.Distance(planes[i], point) > 0.0
    ensures !ContainsAll(planes[i := Pl.Negate(planes[i])], point)
  {
    Pl.NegateFlips(planes[i], point);
    assert planes[i := Pl.Negate(planes[i])][i] == Pl.Negate(planes[i]);
  }

  /** Every point on all six planes of a frustum is inside it. */
  lemma OnAllPlanesInside(planes: seq<Pl.Plane>, point: P3.Point3D)
    requires forall i :: 0 <= i < |planes| ==> Pl.Distance(planes[i], point) == 0.0
    ensures ContainsAll(planes, point)
  {
  }

  class Frustum {
    const planes: array<Pl.Plane>

    ghost predicate Valid()
      reads this
    {
      planes.Length == NClipPlanes
    }

    constructor ()
      ensures Valid() && fresh(planes)
    {
      planes := new Pl.Plane[NClipPlanes](_ => Pl.Init(None, 0.0));
    }

    /** graphene_frustum_init: the six planes in argument order. */
    method Init(p0: Pl.Plane, p1: Pl.Plane, p2: Pl.Plane, p3: Pl.Plane, p4: Pl.Plane, p5: Pl.Plane)
      requires Valid()
      modifies planes
      ensures planes[..] == [p0, p1, p2, p3, p4, p5]
    {
      planes[0] := Pl.InitFromPlane(p0);
      planes[1] := Pl.InitFromPlane(p1);
      planes[2] := Pl.InitFromPlane(p2);
      planes[3] := Pl.InitFromPlane(p3);
      planes[4] := Pl.InitFromPlane(p4);
      planes[5] := Pl.InitFromPlane(p5);
    }

    /** graphene_frustum_init_from_frustum: copies the planes of src one by
      * one (src may be this frustum itself). */
    method InitFromFrustum(src: Frustum)
      requires Valid() && src.Valid()
      modifies planes
      ensures planes[..] == old(src.planes[..])
    {
      var i := 0;
      while i < NClipPlanes
        invariant 0 <= i <= NClipPlanes
        invariant planes[..i] == old(src.planes[..i])
        invariant src.planes[i..] == old(src.planes[i..])
      {
        planes[i] := Pl.InitFromPlane(src.planes[i]);
        i := i + 1;
      }
    }

    /** graphene_frustum_contains_point: false for a NULL point, otherwise
      * true exactly when no plane has the point on its negative side; the
      * scan stops at the first plane that does. */
    method ContainsPoint(point: Option<P3.Point3D>) returns (r: bool)
      requires Valid()
      ensures r <==> point.Some? && ContainsAll(planes[..], point.value)
    {
      if point.None? {
        return false;
      }
      var i := 0;
      while i < NClipPlanes
        invariant 0 <= i <= NClipPlanes
        invariant ContainsAll(planes[..i], point.value)
      {
        if Pl.Distance(planes[i], point.value) < 0.0 {
          assert Pl.Distance(planes[..][i], point.value) < 0.0;
          return false;
        }
        assert planes[..i + 1] == planes[..i] + [planes[i]];
        i := i + 1;
      }
      assert planes[..i] == planes[..];
      return true;
    }

    /** graphene_frustum_intersects_sphere: true exactly when no plane has
      * the centre further than the radius behind it. */
    method IntersectsSphere(sphere: Sphere) returns (r: bool)
      requires Valid()
      ensures r <==> IntersectsAll(planes[..], sphere)
    {
      var center := P3.InitFromVec3(sphere.center);
      var i := 0;
      while i < NClipPlanes
        invariant 0 <= i <= NClipPlanes
        invariant IntersectsAll(planes[..i], sphere)
      {
        var distance := Pl.Distance(planes[i], center);
        if distance < -sphere.radius {
          assert Pl.Distance(planes[..][i], center) < -sphere.radius;
          return false;
        }
        assert planes[..i + 1] == planes[..i] + [planes[i]];
        i := i + 1;
      }
      assert planes[..i] == planes[..];
      return true;
    }
  }

  /** The init test: a frustum initialised from six planes and a copy of it
    * hold the same planes, and both classify points alike. */
  method CopyAgrees(p0: Pl.Plane, p1: Pl.Plane, p2: Pl.Plane, p3: Pl.Plane, p4: Pl.Plane, p5: Pl.Plane,
                    point: P3.Point3D) returns (inOriginal: bool, inCopy: bool)
    ensures inOriginal == inCopy
    ensures inOriginal <==> ContainsAll([p0, p1, p2, p3, p4, p5], point)
  {
    var f := new Frustum();
    f.Init(p0, p1, p2, p3, p4, p5);
    var g := new Frustum();
    g.InitFromFrustum(f);
    inOriginal := f.ContainsPoint(Some(point));
    inCopy := g.ContainsPoint(Some(point));
  }
}
