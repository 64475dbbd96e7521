/** `Box`: six axis-aligned rectangles kept in a `HittableList`. */
module Boxes {
  import opened Util
  import opened Vectors
  import opened Rays
  import opened HitRecords
  import opened Materials
  import opened Numerics
  import opened Aabbs
  import opened Rectangles
  import opened Hittables
  import opened HittableLists

  /** The sides in the order the constructor adds them. The `Rect_yz`
      constructor takes `(z0, z1, y0, y1, k)`, but is handed the y extent
      first and the z extent second. */
  function BoxSides(m: Material, minP: Point3, maxP: Point3): seq<Hittable>
  {
    [RectXY(m, minP.x, maxP.x, minP.y, maxP.y, minP.z),
     RectXY(m, minP.x, maxP.x, minP.y, maxP.y, maxP.z),
     RectXZ(m, minP.x, maxP.x, minP.z, maxP.z, minP.y),
     RectXZ(m, minP.x, maxP.x, minP.z, maxP.z, maxP.y),
     RectYZ(m, minP.y, maxP.y, minP.z, maxP.z, minP.x),
     RectYZ(m, minP.y, maxP.y, minP.z, maxP.z, maxP.x)]
  }

  /** `Box(m, min_, max_)`: pushes the six sides onto an empty list. */
  method MakeBox(m: Material, minP: Point3, maxP: Point3) returns (b: Hittable)
    ensures b == Box(minP, maxP, BoxSides(m, minP, maxP))
  {
    var sides := new HittableList();
    sides.Add(RectXY(m, minP.x, maxP.x, minP.y, maxP.y, minP.z));
    sides.Add(RectXY(m, minP.x, maxP.x, minP.y, maxP.y, maxP.z));
    sides.Add(RectXZ(m, minP.x, maxP.x, minP.z, maxP.z, minP.y));
    sides.Add(RectXZ(m, minP.x, maxP.x, minP.z, maxP.z, maxP.y));
    sides.Add(RectYZ(m, minP.y, maxP.y, minP.z, maxP.z, minP.x));
    sides.Add(RectYZ(m, minP.y, maxP.y, minP.z, maxP.z, maxP.x));
    b := Box(minP, maxP, sides.list);
  }

  /** `Box()`: both corners at the origin and no sides. */
  const EmptyBox: Hittable := Box(Zero, Zero, [])

  /** The six sides lie in the six faces' planes, bottom and top first;
      the two `Rect_yz` sides hold the y extent where their z extent
      belongs, and the other way round. */
  lemma BoxSidesLayout(m: Material, minP: Point3, maxP: Point3)
    ensures var s := BoxSides(m, minP, maxP);
            |s| == 6 &&
            s[0].RectXY? && s[0].k == minP.z && s[1].RectXY? && s[1].k == maxP.z &&
            s[2].RectXZ? && s[2].k == minP.y && s[3].RectXZ? && s[3].k == maxP.y &&
            s[4].RectYZ? && s[4].k == minP.x && s[5].RectYZ? && s[5].k == maxP.x &&
            (forall i :: 4 <= i < 6 ==>
               s[i].z0 == minP.y && s[i].z1 == maxP.y && s[i].y0 == minP.z && s[i].y1 == maxP.z)
  {
  }

  /** A box with no flat extent is well formed. */
  lemma BoxWellFormed(m: Material, minP: Point3, maxP: Point3)
    requires minP.x != maxP.x && minP.y != maxP.y && minP.z != maxP.z
    ensures WellFormedScene(Box(minP, maxP, BoxSides(m, minP, maxP)))
  {
  }

  /** `Box::hit` is its sides' `hit`, and `Box::boundingBox` is exactly
      the two corners. */
  lemma BoxDelegates(minP: Point3, maxP: Point3, sides: seq<Hittable>, lib: Lib, r: Ray,
                     tMin: real, tMax: Bound, rec: Record, outputBox: Aabb)
    requires forall o :: o in sides ==> WellFormedScene(o)
    ensures Hit(Box(minP, maxP, sides), lib, r, tMin, tMax, rec) == ListHit(sides, lib, r, tMin, tMax, rec)
    ensures BoundingBox(Box(minP, maxP, sides), outputBox) == BoxResult(true, Aabb(minP, maxP))
  {
  }

  /** The default box has no sides and so is never hit. */
  lemma EmptyBoxNeverHit(lib: Lib, r: Ray, tMin: real, tMax: Bound, rec: Record)
    ensures Hit(EmptyBox, lib, r, tMin, tMax, rec) == HitResult(false, rec)
  {
  }

  /** A ray travelling along -x, parallel to the four sides in the
      planes z = k and y = k, towards the face x = `maxP.x` of the box
      `[Zero, maxP]` at a height `z` above `maxP.y`. */
  predicate AlongMinusX(r: Ray, maxP: Point3)
  {
    r.direction.x < 0.0 && r.direction.y == 0.0 && r.direction.z == 0.0 &&
    maxP.x < r.origin.x && 0.0 <= r.origin.y <= maxP.y && maxP.y < r.origin.z <= maxP.z
  }

  /** No side of the box is hit by such a ray: it is parallel to four of
      them, and meets the two `Rect_yz` planes where z exceeds the z extent
      `[0, maxP.y]` those sides were given. */
  lemma AlongMinusXMissesSide(m: Material, lib: Lib, maxP: Point3, r: Ray, tMin: real, tMax: Bound, j: int)
    requires 0.0 < maxP.x && 0.0 < maxP.y < maxP.z
    requires AlongMinusX(r, maxP)
    requires 0 <= j < 6
    ensures WellFormedScene(BoxSides(m, Zero, maxP)[j])
    ensures !Hit(BoxSides(m, Zero, maxP)[j], lib, r, tMin, tMax, IndeterminateRecord()).hit
  {
    var s := BoxSides(m, Zero, maxP)[j];
    if j < 2 {
      assert PlaneParameter(s.k, 2, r) == None;
    } else if j < 4 {
      assert PlaneParameter(s.k, 1, r) == None;
    } else {
      match PlaneParameter(s.k, 0, r)
      case None =>
      case Some(t) =>
        IndexAt(r, t, 2);
        assert !WithinRect(s.z0, s.z1, s.y0, s.y1, 2, 1, At(r, t));
    }
  }

  /** Because of the swapped extents, a box `[Zero, maxP]` with
      `maxP.y < maxP.z` is missed by a ray that meets its face `x = maxP.x`
      at a point of that face, strictly ahead of the ray's origin. */
  lemma SwappedSideMissesFace(m: Material, lib: Lib, maxP: Point3, r: Ray, tMin: real, tMax: Bound, rec: Record)
    requires 0.0 < maxP.x && 0.0 < maxP.y < maxP.z
    requires AlongMinusX(r, maxP)
    ensures WellFormedScene(Box(Zero, maxP, BoxSides(m, Zero, maxP)))
    ensures var t := PlaneParameter(maxP.x, 0, r);
            t.Some? && t.value > 0.0 &&
            At(r, t.value).x == maxP.x &&
            0.0 <= At(r, t.value).y <= maxP.y && 0.0 <= At(r, t.value).z <= maxP.z
    ensures Hit(Box(Zero, maxP, BoxSides(m, Zero, maxP)), lib, r, tMin, tMax, rec) == HitResult(false, rec)
  {
    var sides := BoxSides(m, Zero, maxP);
    BoxWellFormed(m, Zero, maxP);
    var t := (maxP.x - r.origin.x) / r.direction.x;
    assert t * r.direction.x == maxP.x - r.origin.x;
    IndexAt(r, t, 1);
    IndexAt(r, t, 2);
    forall j | 0 <= j < |sides|
      ensures !Hit(sides[j], lib, r, tMin, tMax, IndeterminateRecord()).hit
    {
      AlongMinusXMissesSide(m, lib, maxP, r, tMin, tMax, j);
    }
    ListMisses(sides, lib, r, tMin, tMax, rec);
  }
}
