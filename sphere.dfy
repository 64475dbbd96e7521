/** Spheres: the ray-sphere quadratic, the choice of its root, and
    `Sphere::hit`. The root selection is shared with moving spheres. */
module Spheres {
  import opened Util
  import opened Vectors
  import opened Rays
  import opened HitRecords
  import opened Materials
  import opened Numerics
  import opened Aabbs

  /** The coefficients of `a t^2 + 2 halfB t + c = 0`, whose roots are the
      ray parameters at which the ray meets the sphere. */
  datatype Quadratic = Quadratic(a: real, halfB: real, c: real)

  function SphereQuadratic(center: Point3, radius: real, r: Ray): Quadratic
  {
    var oc := Sub(r.origin, center);
    Quadratic(LengthSquared(r.direction), Dot(oc, r.direction), LengthSquared(oc) - radius * radius)
  }

  function Discriminant(q: Quadratic): real
  {
    q.halfB * q.halfB - q.a * q.c
  }

  /** `(-half_b - sqrtd) / a` */
  function NearRoot(q: Quadratic, sqrtd: real): real
    requires q.a != 0.0
  {
    (-q.halfB - sqrtd) / q.a
  }

  /** `(-half_b + sqrtd) / a` */
  function FarRoot(q: Quadratic, sqrtd: real): real
    requires q.a != 0.0
  {
    (-q.halfB + sqrtd) / q.a
  }

  /** The root selection of `hit`: the near root when it lies in
      `[tMin, tMax]`, otherwise the far root when that does, otherwise none. */
  function SelectRoot(q: Quadratic, sqrtd: real, tMin: real, tMax: Bound): (root: Option<real>)
    requires q.a != 0.0
    ensures root.Some? ==> InRange(root.value, tMin, tMax)
    ensures InRange(NearRoot(q, sqrtd), tMin, tMax) ==> root == Some(NearRoot(q, sqrtd))
    ensures !InRange(NearRoot(q, sqrtd), tMin, tMax) ==>
      root == if InRange(FarRoot(q, sqrtd), tMin, tMax) then Some(FarRoot(q, sqrtd)) else None
  {
    var near := NearRoot(q, sqrtd);
    if near < tMin || Exceeds(near, tMax) then
      var far := FarRoot(q, sqrtd);
      if far < tMin || Exceeds(far, tMax) then None else Some(far)
    else
      Some(near)
  }

  /** The parameter at which the ray meets the sphere in `[tMin, tMax]`. A
      negative discriminant is a miss. A zero direction (`a == 0`) makes both
      roots IEEE NaN; that case is a miss here. */
  function SphereRoot(center: Point3, radius: real, lib: Lib, r: Ray, tMin: real, tMax: Bound): (root: Option<real>)
    ensures root.Some? ==> InRange(root.value, tMin, tMax)
    ensures Discriminant(SphereQuadratic(center, radius, r)) < 0.0 ==> root == None
  {
    var q := SphereQuadratic(center, radius, r);
    var discriminant := Discriminant(q);
    if discriminant < 0.0 then None
    else if q.a == 0.0 then None
    else SelectRoot(q, lib.sqrt(discriminant), tMin, tMax)
  }

  /** The first parameter, at or after `tMin`, at which the ray meets the
      sphere, with no upper bound: the near root if it is not before
      `tMin`, else the far root if it is not, else none. */
  function SphereCrossing(center: Point3, radius: real, lib: Lib, r: Ray, tMin: real): Option<real>
  {
    var q := SphereQuadratic(center, radius, r);
    var discriminant := Discriminant(q);
    if discriminant < 0.0 || q.a == 0.0 then None
    else
      var s := lib.sqrt(discriminant);
      if NearRoot(q, s) >= tMin then Some(NearRoot(q, s))
      else if FarRoot(q, s) >= tMin then Some(FarRoot(q, s))
      else None
  }

  /** With a positive leading coefficient and a non-negative square root,
      the near root does not exceed the far root. */
  lemma RootsOrdered(q: Quadratic, s: real)
    requires q.a > 0.0 && s >= 0.0
    ensures NearRoot(q, s) <= FarRoot(q, s)
  {
    var n := NearRoot(q, s);
    var f := FarRoot(q, s);
    assert n * q.a == -q.halfB - s;
    assert f * q.a == -q.halfB + s;
  }

  /** The root selection finds the sphere's first crossing whenever that
      lies within the upper bound, and nothing otherwise: the sphere is hit
      first where the ray enters it (or, from inside, where it leaves). */
  lemma {:induction false} SphereRootIsCrossing(center: Point3, radius: real, lib: Lib, r: Ray,
                                                tMin: real, tMax: Bound)
    requires var d := Discriminant(SphereQuadratic(center, radius, r)); d >= 0.0 ==> lib.sqrt(d) >= 0.0
    ensures var c := SphereCrossing(center, radius, lib, r, tMin);
            SphereRoot(center, radius, lib, r, tMin, tMax) ==
              if c.Some? && InRange(c.value, tMin, tMax) then c else None
  {
    var q := SphereQuadratic(center, radius, r);
    var d := Discriminant(q);
    if d >= 0.0 && q.a != 0.0 {
      LengthSquaredIsDot(r.direction);
      RootsOrdered(q, lib.sqrt(d));
    }
  }

  /** `get_uv_coordinates(p, u, v)` with `acos` and `atan2` supplied.
      When `acos` lands in `[0, pi]` and `atan2` in `[-pi, pi]`, as the C
      library promises, both coordinates lie in `[0, 1]`. */
  function SphereUV(lib: Lib, p: Point3): (uv: (real, real))
    ensures 0.0 <= lib.acos(-p.y) <= Pi && -Pi <= lib.atan2(-p.z, p.x) <= Pi ==>
              0.0 <= uv.0 <= 1.0 && 0.0 <= uv.1 <= 1.0
  {
    var theta := lib.acos(-p.y);
    var phi := lib.atan2(-p.z, p.x) + Pi;
    (phi / (2.0 * Pi), theta / Pi)
  }

  /** `Sphere::hit(r, t_min, t_max, rec)`. */
  function SphereHit(center: Point3, radius: real, material: Material, lib: Lib,
                     r: Ray, tMin: real, tMax: Bound, rec: Record): (res: HitResult<Material>)
    requires radius != 0.0
    ensures Reports(res, rec, r, tMin, tMax, material)
    ensures res.hit <==> SphereRoot(center, radius, lib, r, tMin, tMax).Some?
    ensures res.hit ==> res.rec.t == SphereRoot(center, radius, lib, r, tMin, tMax).value
    ensures res.hit ==> var outward := DivScalar(Sub(res.rec.p, center), radius);
                        (res.rec.frontFace <==> Dot(r.direction, outward) < 0.0) &&
                        res.rec.normal == (if res.rec.frontFace then outward else Neg(outward)) &&
                        (res.rec.u, res.rec.v) == SphereUV(lib, outward)
  {
    match SphereRoot(center, radius, lib, r, tMin, tMax)
    case None => HitResult(false, rec)
    case Some(root) =>
      var p := At(r, root);
      var outward := DivScalar(Sub(p, center), radius);
      var faced := WithFaceNormal(rec.(t := root, p := p), r, outward);
      var (u, v) := SphereUV(lib, outward);
      HitResult(true, faced.(u := u, v := v, material := Some(material)))
  }

  /** `Sphere::boundingBox`: a sphere reports no box and leaves
      `output_box` as it was. */
  function SphereBoundingBox(outputBox: Aabb): (res: BoxResult)
    ensures !res.ok && res.box == outputBox
  {
    BoxResult(false, outputBox)
  }

  /** A root `t = (-halfB -+ s) / a` with `s * s` the discriminant solves
      `a t^2 + 2 halfB t + c = 0`. */
  lemma RootSolves(q: Quadratic, s: real, t: real)
    requires q.a != 0.0
    requires s * s == Discriminant(q)
    requires t == NearRoot(q, s) || t == FarRoot(q, s)
    ensures q.a * (t * t) + 2.0 * q.halfB * t + q.c == 0.0
  {
    var e := if t == NearRoot(q, s) then -s else s;
    assert t == (-q.halfB + e) / q.a;
    assert e * e == s * s;
    calc {
      q.a * (t * t) + 2.0 * q.halfB * t + q.c;
      == (q.a * t) * t + 2.0 * q.halfB * t + q.c;
      == { assert q.a * t == -q.halfB + e; }
         (-q.halfB + e) * t + 2.0 * q.halfB * t + q.c;
      == (q.halfB + e) * t + q.c;
      == ((q.halfB + e) * (-q.halfB + e)) / q.a + q.c;
      == (e * e - q.halfB * q.halfB) / q.a + q.c;
      == (q.halfB * q.halfB - q.a * q.c - q.halfB * q.halfB) / q.a + q.c;
      == (-(q.a * q.c)) / q.a + q.c;
      == 0.0;
    }
  }

  /** `|oc + t d|^2 = |oc|^2 + 2 t (oc . d) + t^2 |d|^2` */
  lemma ExpandAlongRay(oc: Vec3, d: Vec3, t: real)
    ensures LengthSquared(Add(oc, Scale(d, t)))
         == LengthSquared(oc) + 2.0 * Dot(oc, d) * t + LengthSquared(d) * (t * t)
  {
    var x := oc.x + d.x * t;
    var y := oc.y + d.y * t;
    var z := oc.z + d.z * t;
    assert x * x == oc.x * oc.x + 2.0 * oc.x * d.x * t + d.x * d.x * (t * t);
    assert y * y == oc.y * oc.y + 2.0 * oc.y * d.y * t + d.y * d.y * (t * t);
    assert z * z == oc.z * oc.z + 2.0 * oc.z * d.z * t + d.z * d.z * (t * t);
  }

  /** With an exact square root, the point a sphere reports lies on its
      surface. */
  lemma {:induction false} HitOnSurface(center: Point3, radius: real, material: Material, lib: Lib,
                                        r: Ray, tMin: real, tMax: Bound, rec: Record)
    requires radius != 0.0
    requires ExactSqrtAt(lib, Discriminant(SphereQuadratic(center, radius, r)))
    ensures var res := SphereHit(center, radius, material, lib, r, tMin, tMax, rec);
            res.hit ==> LengthSquared(Sub(res.rec.p, center)) == radius * radius
  {
    var res := SphereHit(center, radius, material, lib, r, tMin, tMax, rec);
    if res.hit {
      var q := SphereQuadratic(center, radius, r);
      var s := lib.sqrt(Discriminant(q));
      var t := res.rec.t;
      assert q.a != 0.0;
      assert t == NearRoot(q, s) || t == FarRoot(q, s);
      RootSolves(q, s, t);
      var oc := Sub(r.origin, center);
      assert Sub(At(r, t), center) == Add(oc, Scale(r.direction, t));
      ExpandAlongRay(oc, r.direction, t);
      calc {
        LengthSquared(Sub(res.rec.p, center));
        == LengthSquared(oc) + 2.0 * Dot(oc, r.direction) * t + LengthSquared(r.direction) * (t * t);
        == (q.c + radius * radius) + 2.0 * q.halfB * t + q.a * (t * t);
        == radius * radius;
      }
    }
  }
}
