/** A ray `origin + t * direction`, emitted at a time `time`. */
module Rays {
  import opened Vectors

  datatype Ray = Ray(origin: Point3, direction: Vec3, time: real)

  /** `Ray(origin, direction)`: the time defaults to 0. */
  function MakeRay(origin: Point3, direction: Vec3): (r: Ray)
    ensures r.origin == origin && r.direction == direction
    ensures r.time == 0.0
  {
    Ray(origin, direction, 0.0)
  }

  /** `at(t)`: the point reached after travelling `t` times the direction. */
  function At(r: Ray, t: real): (p: Point3)
    ensures Sub(p, r.origin) == Scale(r.direction, t)
    ensures t == 0.0 ==> p == r.origin
    ensures t == 1.0 ==> p == Add(r.origin, r.direction)
  {
    Add(r.origin, Scale(r.direction, t))
  }

  /** Points along a ray are affine in `t`. */
  lemma AtAffine(r: Ray, s: real, t: real)
    ensures Sub(At(r, t), At(r, s)) == Scale(r.direction, t - s)
  {
  }
}
