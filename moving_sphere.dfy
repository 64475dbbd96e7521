/** Spheres whose centre moves linearly from `center0` at `time0` to
    `center1` at `time1`. */
module MovingSpheres {
  import opened Util
  import opened Vectors
  import opened Rays
  import opened HitRecords
  import opened Materials
  import opened Numerics
  import opened Aabbs
  import opened Spheres

  /** `centerAtTime(time)`: linear interpolation, and extrapolation, of the
      centre. */
  function CenterAtTime(time0: real, time1: real, center0: Point3, center1: Point3, time: real): (c: Point3)
    requires time1 != time0
    ensures time == time0 ==> c == center0
    ensures time == time1 ==> c == center1
  {
    Add(center0, Scale(Sub(center1, center0), (time - time0) / (time1 - time0)))
  }

  /** Half way between the two times the centre is half way between the
      two centres. */
  lemma CenterAtMidTime(time0: real, time1: real, center0: Point3, center1: Point3)
    requires time1 != time0
    ensures CenterAtTime(time0, time1, center0, center1, (time0 + time1) / 2.0)
         == Scale(Add(center0, center1), 0.5)
  {
    var k := ((time0 + time1) / 2.0 - time0) / (time1 - time0);
    assert k == 0.5 by {
      calc {
        ((time0 + time1) / 2.0 - time0) / (time1 - time0);
        == ((time1 - time0) / 2.0) / (time1 - time0);
        == 0.5;
      }
    }
  }

  /** `MovingSphere::hit`: the sphere test against the centre at the ray's
      time. The record's normal is first assigned `(p - center) / radius`
      and then overwritten by `set_face_normal`; `u` and `v` are not
      assigned. */
  function MovingSphereHit(time0: real, time1: real, center0: Point3, center1: Point3, radius: real,
                           material: Material, lib: Lib,
                           r: Ray, tMin: real, tMax: Bound, rec: Record): (res: HitResult<Material>)
    requires time1 != time0 && radius != 0.0
    ensures Reports(res, rec, r, tMin, tMax, material)
    ensures var center := CenterAtTime(time0, time1, center0, center1, r.time);
            (res.hit <==> SphereRoot(center, radius, lib, r, tMin, tMax).Some?) &&
            (res.hit ==> res.rec.t == SphereRoot(center, radius, lib, r, tMin, tMax).value)
    ensures res.hit ==> res.rec.u == rec.u && res.rec.v == rec.v
    ensures res.hit ==>
      var outward := DivScalar(Sub(res.rec.p, CenterAtTime(time0, time1, center0, center1, r.time)), radius);
      res.rec.normal == if res.rec.frontFace then outward else Neg(outward)
  {
    var center := CenterAtTime(time0, time1, center0, center1, r.time);
    match SphereRoot(center, radius, lib, r, tMin, tMax)
    case None => HitResult(false, rec)
    case Some(root) =>
      var p := At(r, root);
      var written := rec.(t := root, p := p, normal := DivScalar(Sub(p, center), radius),
                           material := Some(material));
      var outward := DivScalar(Sub(p, center), radius);
      HitResult(true, WithFaceNormal(written, r, outward))
  }

  /** `MovingSphere::boundingBox`: the default box surrounded by the boxes
      of the sphere at its two times. Because of `surround`, the result
      keeps the origin as its minimum and takes the maximum of the second
      box. */
  function MovingSphereBoundingBox(time0: real, time1: real, center0: Point3, center1: Point3,
                                   radius: real): (res: BoxResult)
    requires time1 != time0
    ensures res.ok
    ensures res.box == Aabb(Zero, AddScalar(center1, radius))
  {
    var c0 := CenterAtTime(time0, time1, center0, center1, time0);
    var c1 := CenterAtTime(time0, time1, center0, center1, time1);
    var box1 := Aabb(SubScalar(c0, radius), AddScalar(c0, radius));
    var box2 := Aabb(SubScalar(c1, radius), AddScalar(c1, radius));
    BoxResult(true, Surrounded(Surrounded(DefaultBox, box1), box2))
  }

  /** The reported box can miss the sphere entirely: a unit sphere moving
      from `(-5,-5,-5)` to `(-3,-3,-3)` gets the box `[(0,0,0), (-2,-2,-2)]`,
      whose minimum exceeds its maximum. */
  lemma MovingBoxMissesSphere()
    ensures var res := MovingSphereBoundingBox(0.0, 1.0, Vec3(-5.0, -5.0, -5.0), Vec3(-3.0, -3.0, -3.0), 1.0);
            res.box == Aabb(Zero, Vec3(-2.0, -2.0, -2.0))
  {
  }
}
