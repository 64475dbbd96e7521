/** Axis-aligned rectangles in the planes `z = k` (`Rect_xy`), `y = k`
    (`Rect_xz`) and `x = k` (`Rect_yz`). The three `hit` bodies differ only
    in their axes, so one plane test serves all three. */
module Rectangles {
  import opened Util
  import opened Vectors
  import opened Rays
  import opened HitRecords
  import opened Materials
  import opened Aabbs

  /** The half thickness given to the boxes of rectangles. */
  const Thickness: real := 0.0001

  /** Unit vector along axis `i`. */
  function AxisVector(i: int): (e: Vec3)
    requires 0 <= i < 3
    ensures Index(e, i) == 1.0
    ensures forall j :: 0 <= j < 3 && j != i ==> Index(e, j) == 0.0
  {
    WithIndex(Zero, i, 1.0)
  }

  lemma DotAxisVector(d: Vec3, i: int)
    requires 0 <= i < 3
    ensures Dot(d, AxisVector(i)) == Index(d, i)
  {
  }

  /** `t = (k - origin[n]) / direction[n]`, the parameter at which the ray
      meets the plane; absent when the ray is parallel to the plane (there
      the quotient is an IEEE infinity or NaN). */
  function PlaneParameter(k: real, axisN: int, r: Ray): (t: Option<real>)
    requires 0 <= axisN < 3
    ensures t.Some? <==> Index(r.direction, axisN) != 0.0
    ensures t.Some? ==> Index(At(r, t.value), axisN) == k
  {
    var dn := Index(r.direction, axisN);
    if dn == 0.0 then None
    else
      var t := (k - Index(r.origin, axisN)) / dn;
      assert dn * t == k - Index(r.origin, axisN);
      Some(t)
  }

  /** A fraction `x / w` of a positive width lies in `[0, 1]` when `x` does
      in `[0, w]`. */
  lemma UnitFraction(x: real, w: real)
    requires w != 0.0
    ensures 0.0 < w && 0.0 <= x <= w ==> 0.0 <= x / w <= 1.0
  {
    if 0.0 < w && 0.0 <= x <= w {
      var f := x / w;
      assert f * w == x;
      if f < 0.0 {
        calc { x; == f * w; < 0.0 * w; }
      }
      if f > 1.0 {
        calc { x; == f * w; > 1.0 * w; }
      }
    }
  }

  lemma IndexAt(r: Ray, t: real, i: int)
    requires 0 <= i < 3
    ensures Index(At(r, t), i) == Index(r.origin, i) + t * Index(r.direction, i)
  {
  }

  /** The hit point's coordinates on axes `axisA` and `axisB` lie in
      `[a0, a1]` and `[b0, b1]`. */
  predicate WithinRect(a0: real, a1: real, b0: real, b1: real, axisA: int, axisB: int, p: Point3)
    requires 0 <= axisA < 3 && 0 <= axisB < 3
  {
    a0 <= Index(p, axisA) <= a1 && b0 <= Index(p, axisB) <= b1
  }

  /** The parameter at which the ray meets the rectangle, with no bounds
      on it: where it crosses the plane, if that point lies within the
      rectangle. */
  function PlaneCrossing(a0: real, a1: real, b0: real, b1: real, k: real,
                         axisN: int, axisA: int, axisB: int, r: Ray): Option<real>
    requires 0 <= axisN < 3 && 0 <= axisA < 3 && 0 <= axisB < 3
  {
    match PlaneParameter(k, axisN, r)
    case None => None
    case Some(t) => if WithinRect(a0, a1, b0, b1, axisA, axisB, At(r, t)) then Some(t) else None
  }

  /** What a successful rectangle hit writes into the record: `u`, `v`,
      `t`, the face normal, the material and `p`, in that order. */
  function RectRecord(material: Material, a0: real, a1: real, b0: real, b1: real,
                      axisN: int, axisA: int, axisB: int, r: Ray, t: real, rec: Record): (res: Record)
    requires 0 <= axisN < 3 && 0 <= axisA < 3 && 0 <= axisB < 3
    requires a1 != a0 && b1 != b0
    ensures res.t == t && res.p == At(r, t)
    ensures res.material == Some(material)
    ensures res.frontFace <==> Index(r.direction, axisN) < 0.0
    ensures res.normal == if res.frontFace then AxisVector(axisN) else Neg(AxisVector(axisN))
    ensures a0 < a1 && b0 < b1 && WithinRect(a0, a1, b0, b1, axisA, axisB, At(r, t)) ==>
      0.0 <= res.u <= 1.0 && 0.0 <= res.v <= 1.0
  {
    IndexAt(r, t, axisA);
    IndexAt(r, t, axisB);
    var a := Index(r.origin, axisA) + t * Index(r.direction, axisA);
    var b := Index(r.origin, axisB) + t * Index(r.direction, axisB);
    var u := (a - a0) / (a1 - a0);
    var v := (b - b0) / (b1 - b0);
    UnitFraction(a - a0, a1 - a0);
    UnitFraction(b - b0, b1 - b0);
    DotAxisVector(r.direction, axisN);
    var faced := WithFaceNormal(rec.(u := u, v := v, t := t), r, AxisVector(axisN));
    faced.(material := Some(material), p := At(r, t))
  }

  /** The rectangle `[a0, a1] x [b0, b1]` on axes `axisA`, `axisB` in the
      plane where axis `axisN` equals `k`, with outward normal along
      `axisN`. Both range checks accept their end points. */
  function PlaneHit(material: Material, a0: real, a1: real, b0: real, b1: real, k: real,
                    axisN: int, axisA: int, axisB: int,
                    r: Ray, tMin: real, tMax: Bound, rec: Record): (res: HitResult<Material>)
    requires 0 <= axisN < 3 && 0 <= axisA < 3 && 0 <= axisB < 3
    requires a1 != a0 && b1 != b0
    ensures !res.hit ==> res.rec == rec
    ensures res.hit <==>
      var t := PlaneParameter(k, axisN, r);
      t.Some? && InRange(t.value, tMin, tMax) && WithinRect(a0, a1, b0, b1, axisA, axisB, At(r, t.value))
    ensures res.hit ==>
      res.rec == RectRecord(material, a0, a1, b0, b1, axisN, axisA, axisB, r, PlaneParameter(k, axisN, r).value, rec)
  {
    match PlaneParameter(k, axisN, r)
    case None => HitResult(false, rec)
    case Some(t) =>
      if t < tMin || Exceeds(t, tMax) then HitResult(false, rec)
      else
        IndexAt(r, t, axisA);
        IndexAt(r, t, axisB);
        var a := Index(r.origin, axisA) + t * Index(r.direction, axisA);
        var b := Index(r.origin, axisB) + t * Index(r.direction, axisB);
        if a < a0 || a > a1 || b < b0 || b > b1 then HitResult(false, rec)
        else HitResult(true, RectRecord(material, a0, a1, b0, b1, axisN, axisA, axisB, r, t, rec))
  }

  /** What a rectangle hit promises its caller: a point of the rectangle in
      the plane, at a parameter in range, with the rectangle's material and
      a normal along the plane's axis facing the ray; a miss leaves the
      record as it was. */
  lemma PlaneHitProperties(material: Material, a0: real, a1: real, b0: real, b1: real, k: real,
                           axisN: int, axisA: int, axisB: int,
                           r: Ray, tMin: real, tMax: Bound, rec: Record)
    requires 0 <= axisN < 3 && 0 <= axisA < 3 && 0 <= axisB < 3
    requires a1 != a0 && b1 != b0
    ensures var res := PlaneHit(material, a0, a1, b0, b1, k, axisN, axisA, axisB, r, tMin, tMax, rec);
            Reports(res, rec, r, tMin, tMax, material) &&
            (res.hit ==> Index(res.rec.p, axisN) == k &&
                         WithinRect(a0, a1, b0, b1, axisA, axisB, res.rec.p) &&
                         (res.rec.frontFace <==> Index(r.direction, axisN) < 0.0) &&
                         res.rec.normal == (if res.rec.frontFace then AxisVector(axisN) else Neg(AxisVector(axisN))) &&
                         (a0 < a1 && b0 < b1 ==> 0.0 <= res.rec.u <= 1.0 && 0.0 <= res.rec.v <= 1.0))
  {
  }

  /** `Rect_xy::hit`: the plane `z = k`, with u along x and v along y. */
  function RectXYHit(material: Material, x0: real, x1: real, y0: real, y1: real, k: real,
                     r: Ray, tMin: real, tMax: Bound, rec: Record): (res: HitResult<Material>)
    requires x1 != x0 && y1 != y0
    ensures Reports(res, rec, r, tMin, tMax, material)
    ensures res.hit ==> Index(res.rec.p, 2) == k && WithinRect(x0, x1, y0, y1, 0, 1, res.rec.p)
    ensures res.hit ==> (res.rec.frontFace <==> r.direction.z < 0.0)
    ensures res.hit ==> res.rec.normal == if res.rec.frontFace then Vec3(0.0, 0.0, 1.0) else Neg(Vec3(0.0, 0.0, 1.0))
  {
    var res := PlaneHit(material, x0, x1, y0, y1, k, 2, 0, 1, r, tMin, tMax, rec);
    PlaneHitProperties(material, x0, x1, y0, y1, k, 2, 0, 1, r, tMin, tMax, rec);
    assert AxisVector(2) == Vec3(0.0, 0.0, 1.0);
    res
  }

  /** `Rect_xz::hit`: the plane `y = k`, with u along x and v along z. */
  function RectXZHit(material: Material, x0: real, x1: real, z0: real, z1: real, k: real,
                     r: Ray, tMin: real, tMax: Bound, rec: Record): (res: HitResult<Material>)
    requires x1 != x0 && z1 != z0
    ensures Reports(res, rec, r, tMin, tMax, material)
    ensures res.hit ==> Index(res.rec.p, 1) == k && WithinRect(x0, x1, z0, z1, 0, 2, res.rec.p)
    ensures res.hit ==> (res.rec.frontFace <==> r.direction.y < 0.0)
    ensures res.hit ==> res.rec.normal == if res.rec.frontFace then Vec3(0.0, 1.0, 0.0) else Neg(Vec3(0.0, 1.0, 0.0))
  {
    var res := PlaneHit(material, x0, x1, z0, z1, k, 1, 0, 2, r, tMin, tMax, rec);
    PlaneHitProperties(material, x0, x1, z0, z1, k, 1, 0, 2, r, tMin, tMax, rec);
    assert AxisVector(1) == Vec3(0.0, 1.0, 0.0);
    res
  }

  /** `Rect_yz::hit`: the plane `x = k`, with u along z and v along y. */
  function RectYZHit(material: Material, z0: real, z1: real, y0: real, y1: real, k: real,
                     r: Ray, tMin: real, tMax: Bound, rec: Record): (res: HitResult<Material>)
    requires z1 != z0 && y1 != y0
    ensures Reports(res, rec, r, tMin, tMax, material)
    ensures res.hit ==> Index(res.rec.p, 0) == k && WithinRect(z0, z1, y0, y1, 2, 1, res.rec.p)
    ensures res.hit ==> (res.rec.frontFace <==> r.direction.x < 0.0)
    ensures res.hit ==> res.rec.normal == if res.rec.frontFace then Vec3(1.0, 0.0, 0.0) else Neg(Vec3(1.0, 0.0, 0.0))
  {
    var res := PlaneHit(material, z0, z1, y0, y1, k, 0, 2, 1, r, tMin, tMax, rec);
    PlaneHitProperties(material, z0, z1, y0, y1, k, 0, 2, 1, r, tMin, tMax, rec);
    assert AxisVector(0) == Vec3(1.0, 0.0, 0.0);
    res
  }

  /** `Rect_xy::boundingBox`: the rectangle thickened by 0.0001 either side
      of its plane. */
  function RectXYBoundingBox(x0: real, x1: real, y0: real, y1: real, k: real): (res: BoxResult)
    ensures res.ok
    ensures res.box.minPoint.x == x0 && res.box.maxPoint.x == x1
    ensures res.box.minPoint.y == y0 && res.box.maxPoint.y == y1
    ensures res.box.minPoint.z == k - Thickness && res.box.maxPoint.z == k + Thickness
    ensures forall p: Point3 :: x0 <= p.x <= x1 && y0 <= p.y <= y1 && p.z == k ==> Contains(res.box, p)
  {
    BoxResult(true, Aabb(Vec3(x0, y0, k - Thickness), Vec3(x1, y1, k + Thickness)))
  }

  /** `Rect_xz::boundingBox` */
  function RectXZBoundingBox(x0: real, x1: real, z0: real, z1: real, k: real): (res: BoxResult)
    ensures res.ok
    ensures res.box.minPoint.x == x0 && res.box.maxPoint.x == x1
    ensures res.box.minPoint.z == z0 && res.box.maxPoint.z == z1
    ensures res.box.minPoint.y == k - Thickness && res.box.maxPoint.y == k + Thickness
    ensures forall p: Point3 :: x0 <= p.x <= x1 && z0 <= p.z <= z1 && p.y == k ==> Contains(res.box, p)
  {
    BoxResult(true, Aabb(Vec3(x0, k - Thickness, z0), Vec3(x1, k + Thickness, z1)))
  }

  /** `Rect_yz::boundingBox` */
  function RectYZBoundingBox(z0: real, z1: real, y0: real, y1: real, k: real): (res: BoxResult)
    ensures res.ok
    ensures res.box.minPoint.y == y0 && res.box.maxPoint.y == y1
    ensures res.box.minPoint.z == z0 && res.box.maxPoint.z == z1
    ensures res.box.minPoint.x == k - Thickness && res.box.maxPoint.x == k + Thickness
    ensures forall p: Point3 :: y0 <= p.y <= y1 && z0 <= p.z <= z1 && p.x == k ==> Contains(res.box, p)
  {
    BoxResult(true, Aabb(Vec3(k - Thickness, y0, z0), Vec3(k + Thickness, y1, z1)))
  }
}
