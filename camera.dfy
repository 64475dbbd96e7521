/** The camera: a thin lens at `lookfrom` looking towards `lookat`, with a
    viewport on the focus plane, and the primary rays it shoots through
    that viewport. `tan` and `unit_vector` come from the `Lib` oracle; the
    point of the unit disk and the `rand()` value for the shutter time are
    parameters. */
module Cameras {
  import opened Util
  import opened Vectors
  import opened Rays
  import opened Numerics

  /** The fields the constructor computes. */
  datatype Camera = Camera(
    origin: Point3,
    horizontal: Vec3,
    vertical: Vec3,
    lowerLeftCorner: Point3,
    u: Vec3,
    v: Vec3,
    w: Vec3,
    lensRadius: real,
    time0: real,
    time1: real)

  /** `Camera(lookfrom, lookat, vup, vfov_degrees, aspectRatio, focalDist,
      aperature, time0, time1)`. The viewport is `2 tan(vfov / 2)` high and
      `aspectRatio` times as wide, scaled to the focus distance; its centre
      lies `focalDist` along `-w` from the origin. */
  function MakeCamera(lib: Lib, lookfrom: Point3, lookat: Point3, vup: Vec3, vfovDegrees: real,
                      aspectRatio: real, focalDist: real, aperture: real, time0: real, time1: real): (c: Camera)
    ensures c.origin == lookfrom && c.time0 == time0 && c.time1 == time1
    ensures c.lensRadius == aperture / 2.0
    ensures c.w == lib.unitVector(Sub(lookfrom, lookat))
    ensures c.u == lib.unitVector(Cross(vup, c.w))
    ensures c.v == Cross(c.w, c.u)
    ensures Dot(c.v, c.w) == 0.0 && Dot(c.v, c.u) == 0.0
    ensures var height := focalDist * (2.0 * lib.tan(DegreeToRadians(vfovDegrees) / 2.0));
            c.vertical == Scale(c.v, height) && c.horizontal == Scale(c.u, aspectRatio * height)
    ensures Add(Add(c.lowerLeftCorner, DivScalar(c.horizontal, 2.0)), DivScalar(c.vertical, 2.0))
            == Sub(c.origin, Scale(c.w, focalDist))
  {
    var lensRadius := aperture / 2.0;
    var theta := DegreeToRadians(vfovDegrees);
    var h := lib.tan(theta / 2.0);
    var w := lib.unitVector(Sub(lookfrom, lookat));
    var u := lib.unitVector(Cross(vup, w));
    var v := Cross(w, u);
    CrossOrthogonal(w, u);
    var viewportHeight := 2.0 * h;
    var viewportWidth := aspectRatio * viewportHeight;
    var horizontal := Scale(u, focalDist * viewportWidth);
    var vertical := Scale(v, focalDist * viewportHeight);
    var lowerLeftCorner :=
      Sub(Sub(Sub(lookfrom, DivScalar(horizontal, 2.0)), DivScalar(vertical, 2.0)), Scale(w, focalDist));
    SubtractedHalvesReturn(lookfrom, DivScalar(horizontal, 2.0), DivScalar(vertical, 2.0), Scale(w, focalDist));
    ghost var height := focalDist * (2.0 * lib.tan(DegreeToRadians(vfovDegrees) / 2.0));
    assert focalDist * viewportHeight == height;
    assert focalDist * viewportWidth == aspectRatio * height by {
      ViewportAspect(focalDist, aspectRatio, viewportHeight);
    }
    Camera(lookfrom, horizontal, vertical, lowerLeftCorner, u, v, w, lensRadius, time0, time1)
  }

  /** When `unit_vector` gives unit vectors and `u` is perpendicular to
      `w`, the camera frame `(u, v, w)` is orthonormal: `v` is a unit
      vector too. */
  lemma {:induction false} CameraFrameOrthonormal(c: Camera)
    requires c.v == Cross(c.w, c.u)
    requires LengthSquared(c.w) == 1.0 && LengthSquared(c.u) == 1.0 && Dot(c.w, c.u) == 0.0
    ensures LengthSquared(c.v) == 1.0
    ensures Dot(c.v, c.w) == 0.0 && Dot(c.v, c.u) == 0.0
  {
    CrossLength(c.w, c.u);
    CrossOrthogonal(c.w, c.u);
  }

  /** Adding back what was subtracted: `((o - a - b - c) + a) + b == o - c`. */
  lemma SubtractedHalvesReturn(o: Vec3, a: Vec3, b: Vec3, c: Vec3)
    ensures Add(Add(Sub(Sub(Sub(o, a), b), c), a), b) == Sub(o, c)
  {
  }

  /** `focalDist * (aspectRatio * height) == aspectRatio * (focalDist * height)` */
  lemma ViewportAspect(focalDist: real, aspectRatio: real, height: real)
    ensures focalDist * (aspectRatio * height) == aspectRatio * (focalDist * height)
  {
  }

  /** The viewport point at `(s, t)`. */
  function ViewportPoint(c: Camera, s: real, t: real): Point3
  {
    Add(Add(c.lowerLeftCorner, Scale(c.horizontal, s)), Scale(c.vertical, t))
  }

  /** `get_ray(s, t)`, where `random_in_unit_disk()` returned `diskSample`
      and the shutter time draws `timeDraw`. The ray leaves a point of the
      lens, offset from the origin along `u` and `v` only, and reaches the
      viewport point at parameter 1 whatever the lens sample; its time lies
      in the shutter interval. */
  function GetRay(c: Camera, s: real, t: real, diskSample: Vec3, timeDraw: RandDraw): (r: Ray)
    ensures At(r, 1.0) == ViewportPoint(c, s, t)
    ensures Sub(r.origin, c.origin) ==
            Add(Scale(c.u, c.lensRadius * diskSample.x), Scale(c.v, c.lensRadius * diskSample.y))
    ensures c.lensRadius == 0.0 ==> r.origin == c.origin
    ensures c.time0 < c.time1 ==> c.time0 <= r.time < c.time1
    ensures c.time0 == c.time1 ==> r.time == c.time0
  {
    var lensDisk := Scale(diskSample, c.lensRadius);
    var offset := Add(Scale(c.u, lensDisk.x), Scale(c.v, lensDisk.y));
    Ray(Add(c.origin, offset),
        Sub(Sub(ViewportPoint(c, s, t), c.origin), offset),
        RandomDoubleIn(c.time0, c.time1, timeDraw))
  }

  /** With aperture 0 every ray starts at `lookfrom`; with the default
      shutter times every ray has time 0. */
  lemma PinholeStillCamera(lib: Lib, lookfrom: Point3, lookat: Point3, vup: Vec3, vfovDegrees: real,
                           aspectRatio: real, focalDist: real, s: real, t: real, diskSample: Vec3, timeDraw: RandDraw)
    ensures var c := MakeCamera(lib, lookfrom, lookat, vup, vfovDegrees, aspectRatio, focalDist, 0.0, 0.0, 0.0);
            GetRay(c, s, t, diskSample, timeDraw).origin == lookfrom &&
            GetRay(c, s, t, diskSample, timeDraw).time == 0.0
  {
  }

  /** When `u` is perpendicular to `w` (as it is for an exact
      `unit_vector`), the lens offset lies in the lens plane: it has no
      component along the viewing axis `w`. */
  lemma LensOffsetInLensPlane(lib: Lib, lookfrom: Point3, lookat: Point3, vup: Vec3, vfovDegrees: real,
                              aspectRatio: real, focalDist: real, aperture: real, time0: real, time1: real,
                              s: real, t: real, diskSample: Vec3, timeDraw: RandDraw)
    requires var c := MakeCamera(lib, lookfrom, lookat, vup, vfovDegrees, aspectRatio, focalDist, aperture, time0, time1);
             Dot(c.u, c.w) == 0.0
    ensures var c := MakeCamera(lib, lookfrom, lookat, vup, vfovDegrees, aspectRatio, focalDist, aperture, time0, time1);
            Dot(Sub(GetRay(c, s, t, diskSample, timeDraw).origin, c.origin), c.w) == 0.0
  {
    var c := MakeCamera(lib, lookfrom, lookat, vup, vfovDegrees, aspectRatio, focalDist, aperture, time0, time1);
    var offset := Sub(GetRay(c, s, t, diskSample, timeDraw).origin, c.origin);
    assert offset == Add(Scale(c.u, c.lensRadius * diskSample.x), Scale(c.v, c.lensRadius * diskSample.y));
    CombinationInPlane(c.u, c.v, c.w, c.lensRadius * diskSample.x, c.lensRadius * diskSample.y);
  }

  /** A combination of two vectors perpendicular to `w` is perpendicular
      to `w`. */
  lemma CombinationInPlane(u: Vec3, v: Vec3, w: Vec3, a: real, b: real)
    requires Dot(u, w) == 0.0 && Dot(v, w) == 0.0
    ensures Dot(Add(Scale(u, a), Scale(v, b)), w) == 0.0
  {
    calc {
      Dot(Add(Scale(u, a), Scale(v, b)), w);
      a * Dot(u, w) + b * Dot(v, w);
      0.0;
    }
  }
}
