/** The `Hittable` interface: every kind of scene object, with `hit` and
    `boundingBox` dispatched on the kind. A `HittableList` and a `Box`
    (whose six sides form a list) answer `hit` by the nearest-hit scan; a
    `BvhNode` answers it from its cached box and its two children. */
module Hittables {
  import opened Util
  import opened Vectors
  import opened Rays
  import opened HitRecords
  import opened Materials
  import opened Numerics
  import opened Aabbs
  import opened Spheres
  import opened MovingSpheres
  import opened Rectangles

  datatype Hittable =
    | Sphere(center: Point3, radius: real, material: Material)
    | MovingSphere(time0: real, time1: real, center0: Point3, center1: Point3,
                   radius: real, material: Material)
    | RectXY(material: Material, x0: real, x1: real, y0: real, y1: real, k: real)
    | RectXZ(material: Material, x0: real, x1: real, z0: real, z1: real, k: real)
    | RectYZ(material: Material, z0: real, z1: real, y0: real, y1: real, k: real)
    | Box(minimum: Point3, maximum: Point3, sides: seq<Hittable>)
    | List(objects: seq<Hittable>)
    | BvhNode(left: Hittable, right: Hittable, bBox: Aabb)

  /** The divisors of every object are nonzero: sphere radii, the time
      span of a moving sphere, and the extents of a rectangle. */
  predicate WellFormedScene(h: Hittable)
  {
    match h
    case Sphere(_, radius, _) => radius != 0.0
    case MovingSphere(time0, time1, _, _, radius, _) => time1 != time0 && radius != 0.0
    case RectXY(_, x0, x1, y0, y1, _) => x1 != x0 && y1 != y0
    case RectXZ(_, x0, x1, z0, z1, _) => x1 != x0 && z1 != z0
    case RectYZ(_, z0, z1, y0, y1, _) => z1 != z0 && y1 != y0
    case Box(_, _, sides) => forall o :: o in sides ==> WellFormedScene(o)
    case List(objects) => forall o :: o in objects ==> WellFormedScene(o)
    case BvhNode(left, right, _) => WellFormedScene(left) && WellFormedScene(right)
  }

  /** The materials that the objects of `h` carry. */
  ghost function MaterialsIn(h: Hittable): set<Material>
  {
    match h
    case Sphere(_, _, m) => {m}
    case MovingSphere(_, _, _, _, _, m) => {m}
    case RectXY(m, _, _, _, _, _) => {m}
    case RectXZ(m, _, _, _, _, _) => {m}
    case RectYZ(m, _, _, _, _, _) => {m}
    case Box(_, _, sides) => ObjectMaterials(sides)
    case List(objects) => ObjectMaterials(objects)
    case BvhNode(left, right, _) => MaterialsIn(left) + MaterialsIn(right)
  }

  /** What every `hit` promises: a miss leaves the record as it was; a hit
      reports a parameter in `[tMin, tMax]`, the ray's point at it, a
      normal facing the ray and one of the scene's materials. */
  ghost predicate HitReported(res: HitResult<Material>, rec: Record, r: Ray, tMin: real, tMax: Bound,
                              ms: set<Material>)
  {
    (!res.hit ==> res.rec == rec) &&
    (res.hit ==> InRange(res.rec.t, tMin, tMax) && res.rec.p == At(r, res.rec.t) &&
                 Dot(r.direction, res.rec.normal) <= 0.0 &&
                 res.rec.material.Some? && res.rec.material.value in ms)
  }

  /** The locals of the nearest-hit loop: `hit_anything`, `closest_so_far`,
      `temp_rec`, which persists from one member to the next, and the
      caller's `rec`. */
  datatype ScanState = ScanState(hitAnything: bool, closest: Bound, temp: Record, rec: Record)

  /** One iteration: the member's answer always becomes `temp_rec`; a hit
      also sets `hit_anything`, lowers `closest_so_far` to its parameter
      and is copied into `rec`. */
  function Advance(st: ScanState, mr: HitResult<Material>): (next: ScanState)
    ensures next.temp == mr.rec
    ensures next.hitAnything == (st.hitAnything || mr.hit)
    ensures mr.hit ==> next.closest == Finite(mr.rec.t) && next.rec == mr.rec
    ensures !mr.hit ==> next.closest == st.closest && next.rec == st.rec
  {
    if mr.hit then ScanState(true, Finite(mr.rec.t), mr.rec, mr.rec)
    else ScanState(st.hitAnything, st.closest, mr.rec, st.rec)
  }

  /** What the loop keeps true: before the first hit `closest_so_far` is
      still `tMax` and `rec` is untouched; after it, `closest_so_far` is
      the parameter of the record last copied into `rec`. */
  ghost predicate ScanInvariant(st: ScanState, rec: Record, r: Ray, tMin: real, tMax: Bound,
                                ms: set<Material>)
  {
    (!st.hitAnything ==> st.closest == tMax && st.rec == rec) &&
    (st.hitAnything ==> st.closest == Finite(st.rec.t) &&
                        HitReported(HitResult(true, st.rec), rec, r, tMin, tMax, ms))
  }

  /** `object->hit(r, t_min, t_max, rec)`. */
  function Hit(h: Hittable, lib: Lib, r: Ray, tMin: real, tMax: Bound, rec: Record): (res: HitResult<Material>)
    requires WellFormedScene(h)
    ensures HitReported(res, rec, r, tMin, tMax, MaterialsIn(h))
    decreases h
  {
    match h
    case Sphere(center, radius, m) => SphereHit(center, radius, m, lib, r, tMin, tMax, rec)
    case MovingSphere(time0, time1, center0, center1, radius, m) =>
      MovingSphereHit(time0, time1, center0, center1, radius, m, lib, r, tMin, tMax, rec)
    case RectXY(m, x0, x1, y0, y1, k) => RectXYHit(m, x0, x1, y0, y1, k, r, tMin, tMax, rec)
    case RectXZ(m, x0, x1, z0, z1, k) => RectXZHit(m, x0, x1, z0, z1, k, r, tMin, tMax, rec)
    case RectYZ(m, z0, z1, y0, y1, k) => RectYZHit(m, z0, z1, y0, y1, k, r, tMin, tMax, rec)
    case Box(_, _, sides) => ListHit(sides, lib, r, tMin, tMax, rec)
    case List(objects) => ListHit(objects, lib, r, tMin, tMax, rec)
    case BvhNode(left, right, bBox) =>
      if !HitBox(bBox, r, tMin, tMax) then HitResult(false, rec)
      else
        var lr := Hit(left, lib, r, tMin, tMax, rec);
        if lr.hit then lr
        else Hit(right, lib, r, tMin, tMax, lr.rec)
  }

  /** `HittableList::hit`: the nearest-hit scan from a fresh `temp_rec`
      with `closest_so_far = t_max`. */
  function ListHit(objs: seq<Hittable>, lib: Lib, r: Ray, tMin: real, tMax: Bound, rec: Record): (res: HitResult<Material>)
    requires forall o :: o in objs ==> WellFormedScene(o)
    ensures HitReported(res, rec, r, tMin, tMax, ObjectMaterials(objs))
    decreases objs, |objs| + 1
  {
    var st := ListScan(objs, 0, lib, r, tMin, tMax, rec, ScanState(false, tMax, IndeterminateRecord(), rec));
    HitResult(st.hitAnything, st.rec)
  }

  /** The scan from member `i` on, in state `st`. */
  function ListScan(objs: seq<Hittable>, i: int, lib: Lib, r: Ray, tMin: real, tMax: Bound,
                    rec: Record, st: ScanState): (res: ScanState)
    requires 0 <= i <= |objs|
    requires forall o :: o in objs ==> WellFormedScene(o)
    requires ScanInvariant(st, rec, r, tMin, tMax, ObjectMaterials(objs))
    ensures ScanInvariant(res, rec, r, tMin, tMax, ObjectMaterials(objs))
    decreases objs, |objs| - i
  {
    if i == |objs| then st
    else
      var o := objs[i];
      var mr := Hit(o, lib, r, tMin, st.closest, st.temp);
      MemberMaterial(objs, i);
      ListScan(objs, i + 1, lib, r, tMin, tMax, rec, Advance(st, mr))
  }

  /** The materials of a list's members. */
  ghost function ObjectMaterials(objs: seq<Hittable>): set<Material>
  {
    set o, m | o in objs && m in MaterialsIn(o) :: m
  }

  lemma MemberMaterial(objs: seq<Hittable>, i: int)
    requires 0 <= i < |objs|
    ensures MaterialsIn(objs[i]) <= ObjectMaterials(objs)
  {
    forall m | m in MaterialsIn(objs[i])
      ensures m in ObjectMaterials(objs)
    {
      assert objs[i] in objs;
    }
  }

  /** `object->boundingBox(time0, time1, output_box)`; no object reads the
      two times, so they are not parameters. */
  function BoundingBox(h: Hittable, outputBox: Aabb): (res: BoxResult)
    requires WellFormedScene(h)
    ensures h.Sphere? ==> res == BoxResult(false, outputBox)
    ensures !h.Sphere? && !h.List? ==> res.ok
    ensures h.Box? ==> res.box == Aabb(h.minimum, h.maximum)
    ensures h.BvhNode? ==> res.box == h.bBox
    decreases h
  {
    match h
    case Sphere(_, _, _) => SphereBoundingBox(outputBox)
    case MovingSphere(time0, time1, center0, center1, radius, _) =>
      MovingSphereBoundingBox(time0, time1, center0, center1, radius)
    case RectXY(_, x0, x1, y0, y1, k) => RectXYBoundingBox(x0, x1, y0, y1, k)
    case RectXZ(_, x0, x1, z0, z1, k) => RectXZBoundingBox(x0, x1, z0, z1, k)
    case RectYZ(_, z0, z1, y0, y1, k) => RectYZBoundingBox(z0, z1, y0, y1, k)
    case Box(minimum, maximum, _) => BoxResult(true, Aabb(minimum, maximum))
    case List(objects) => ListBox(objects, 0, BoxResult(false, DefaultBox))
    case BvhNode(_, _, bBox) => BoxResult(true, bBox)
  }

  /** `HittableList::boundingBox` from member `i` on, with `found_anything`
      and `output_box` in `acc`: a member that reports a box (into a fresh
      `aabb temp`) is surrounded, one that does not is skipped. */
  function ListBox(objs: seq<Hittable>, i: int, acc: BoxResult): BoxResult
    requires 0 <= i <= |objs|
    requires forall o :: o in objs ==> WellFormedScene(o)
    decreases objs, |objs| - i
  {
    if i == |objs| then acc
    else
      var mb := BoundingBox(objs[i], DefaultBox);
      var next := if mb.ok then BoxResult(true, Surrounded(acc.box, mb.box)) else acc;
      ListBox(objs, i + 1, next)
  }

  /** The box a member reports when handed a fresh `aabb temp`. */
  function MemberBox(o: Hittable): (res: BoxResult)
    requires WellFormedScene(o)
    ensures o.Sphere? ==> res == BoxResult(false, DefaultBox)
    ensures !o.Sphere? && !o.List? ==> res.ok
  {
    BoundingBox(o, DefaultBox)
  }

  /** The list's box is found iff some member reports a box; it keeps the
      minimum corner it started from, and takes the maximum corner of the
      last member that reports a box. */
  lemma {:induction false} ListBoxFacts(objs: seq<Hittable>, i: int, acc: BoxResult)
    requires 0 <= i <= |objs|
    requires forall o :: o in objs ==> WellFormedScene(o)
    ensures var res := ListBox(objs, i, acc);
            (res.ok <==> acc.ok || exists j :: i <= j < |objs| && MemberBox(objs[j]).ok) &&
            res.box.minPoint == acc.box.minPoint &&
            ((forall j :: i <= j < |objs| ==> !MemberBox(objs[j]).ok) ==> res.box == acc.box) &&
            (forall j :: i <= j < |objs| && MemberBox(objs[j]).ok &&
                         (forall l :: j < l < |objs| ==> !MemberBox(objs[l]).ok) ==>
                         res.box.maxPoint == MemberBox(objs[j]).box.maxPoint)
    decreases |objs| - i
  {
    if i < |objs| {
      var mb := BoundingBox(objs[i], DefaultBox);
      var next := if mb.ok then BoxResult(true, Surrounded(acc.box, mb.box)) else acc;
      ListBoxFacts(objs, i + 1, next);
    }
  }

  /** For a whole list: an empty list reports no box and the default box;
      otherwise the box's minimum corner is the origin and, when some
      member reports a box, its maximum corner is that of the last such
      member. */
  lemma ListBoundingBox(objs: seq<Hittable>, outputBox: Aabb)
    requires forall o :: o in objs ==> WellFormedScene(o)
    ensures var res := BoundingBox(List(objs), outputBox);
            (res.ok <==> exists j :: 0 <= j < |objs| && MemberBox(objs[j]).ok) &&
            res.box.minPoint == Zero &&
            (!res.ok ==> res.box == DefaultBox) &&
            (forall j :: 0 <= j < |objs| && MemberBox(objs[j]).ok &&
                         (forall l :: j < l < |objs| ==> !MemberBox(objs[l]).ok) ==>
                         res.box.maxPoint == MemberBox(objs[j]).box.maxPoint)
  {
    ListBoxFacts(objs, 0, BoxResult(false, DefaultBox));
  }

  /** A list none of whose members is hit (each handed the fresh
      `temp_rec`, with the full upper bound) misses and leaves the caller's
      record as it was. */
  lemma ListMisses(objs: seq<Hittable>, lib: Lib, r: Ray, tMin: real, tMax: Bound, rec: Record)
    requires forall o :: o in objs ==> WellFormedScene(o)
    requires forall j :: 0 <= j < |objs| ==> !Hit(objs[j], lib, r, tMin, tMax, IndeterminateRecord()).hit
    ensures ListHit(objs, lib, r, tMin, tMax, rec) == HitResult(false, rec)
  {
    ScanMisses(objs, 0, lib, r, tMin, tMax, rec);
  }

  lemma {:induction false} ScanMisses(objs: seq<Hittable>, i: int, lib: Lib, r: Ray, tMin: real, tMax: Bound, rec: Record)
    requires 0 <= i <= |objs|
    requires forall o :: o in objs ==> WellFormedScene(o)
    requires forall j :: i <= j < |objs| ==> !Hit(objs[j], lib, r, tMin, tMax, IndeterminateRecord()).hit
    ensures var st := ScanState(false, tMax, IndeterminateRecord(), rec);
            ListScan(objs, i, lib, r, tMin, tMax, rec, st) == st
    decreases |objs| - i
  {
    if i < |objs| {
      var st := ScanState(false, tMax, IndeterminateRecord(), rec);
      var mr := Hit(objs[i], lib, r, tMin, tMax, IndeterminateRecord());
      assert !mr.hit && mr.rec == IndeterminateRecord();
      assert ListScan(objs, i, lib, r, tMin, tMax, rec, st) == ListScan(objs, i + 1, lib, r, tMin, tMax, rec, st);
      ScanMisses(objs, i + 1, lib, r, tMin, tMax, rec);
    }
  }

  /** A candidate crossing `cs[i]` of member `i` inside `[tMin, tMax]`. */
  predicate Candidate(cs: seq<Option<real>>, i: int, tMin: real, tMax: Bound)
    requires 0 <= i < |cs|
  {
    cs[i].Some? && InRange(cs[i].value, tMin, tMax)
  }

  /** Object `o` meets the ray first at `c` (or never, for `None`): for
      every upper bound it hits exactly when `c` lies in range, and then
      reports `c`, whatever record it is handed. */
  ghost predicate FirstCrossing(o: Hittable, lib: Lib, r: Ray, tMin: real, c: Option<real>)
    requires WellFormedScene(o)
  {
    forall b: Bound, rec: Record ::
      (Hit(o, lib, r, tMin, b, rec).hit <==> c.Some? && InRange(c.value, tMin, b)) &&
      (Hit(o, lib, r, tMin, b, rec).hit ==> Hit(o, lib, r, tMin, b, rec).rec.t == c.value)
  }

  /** What the scan knows after members `[0, i)` when every member has a
      first crossing: something was hit iff some candidate lies in range,
      and then the record holds the smallest such candidate. */
  ghost predicate NearestSoFar(st: ScanState, cs: seq<Option<real>>, i: int, tMin: real, tMax: Bound)
    requires 0 <= i <= |cs|
  {
    (st.hitAnything <==> exists j :: 0 <= j < i && Candidate(cs, j, tMin, tMax)) &&
    (st.hitAnything ==> (forall j :: 0 <= j < i && Candidate(cs, j, tMin, tMax) ==> st.rec.t <= cs[j].value) &&
                        exists j :: 0 <= j < i && Candidate(cs, j, tMin, tMax) && st.rec.t == cs[j].value)
  }

  /** One iteration keeps `NearestSoFar` when the member answers by its
      first crossing under the current `closest_so_far`. */
  lemma NearestStep(st: ScanState, mr: HitResult<Material>, cs: seq<Option<real>>, i: int, tMin: real, tMax: Bound)
    requires 0 <= i < |cs|
    requires NearestSoFar(st, cs, i, tMin, tMax)
    requires !st.hitAnything ==> st.closest == tMax
    requires st.hitAnything ==> st.closest == Finite(st.rec.t)
    requires mr.hit <==> cs[i].Some? && InRange(cs[i].value, tMin, st.closest)
    requires mr.hit ==> mr.rec.t == cs[i].value
    ensures NearestSoFar(Advance(st, mr), cs, i + 1, tMin, tMax)
  {
    if st.hitAnything {
      var k :| 0 <= k < i && Candidate(cs, k, tMin, tMax) && st.rec.t == cs[k].value;
      if mr.hit {
        assert Candidate(cs, i, tMin, tMax);
      } else if Candidate(cs, i, tMin, tMax) {
        assert st.rec.t <= cs[i].value;
      }
    } else {
      if mr.hit {
        assert Candidate(cs, i, tMin, tMax);
      }
    }
  }

  lemma {:induction false} ScanNearest(objs: seq<Hittable>, cs: seq<Option<real>>, i: int, lib: Lib, r: Ray,
                                       tMin: real, tMax: Bound, rec: Record, st: ScanState)
    requires 0 <= i <= |objs| == |cs|
    requires forall o :: o in objs ==> WellFormedScene(o)
    requires forall j :: 0 <= j < |objs| ==> FirstCrossing(objs[j], lib, r, tMin, cs[j])
    requires ScanInvariant(st, rec, r, tMin, tMax, ObjectMaterials(objs))
    requires NearestSoFar(st, cs, i, tMin, tMax)
    ensures NearestSoFar(ListScan(objs, i, lib, r, tMin, tMax, rec, st), cs, |objs|, tMin, tMax)
    decreases |objs| - i
  {
    if i < |objs| {
      var next := ScanStep(objs, cs, i, lib, r, tMin, tMax, rec, st);
      ScanNearest(objs, cs, i + 1, lib, r, tMin, tMax, rec, next);
    } else {
      assert ListScan(objs, i, lib, r, tMin, tMax, rec, st) == st;
    }
  }

  /** One member of the scan: the state after it keeps both invariants. */
  lemma ScanStep(objs: seq<Hittable>, cs: seq<Option<real>>, i: int, lib: Lib, r: Ray,
                 tMin: real, tMax: Bound, rec: Record, st: ScanState) returns (next: ScanState)
    requires 0 <= i < |objs| == |cs|
    requires forall o :: o in objs ==> WellFormedScene(o)
    requires FirstCrossing(objs[i], lib, r, tMin, cs[i])
    requires ScanInvariant(st, rec, r, tMin, tMax, ObjectMaterials(objs))
    requires NearestSoFar(st, cs, i, tMin, tMax)
    ensures ScanInvariant(next, rec, r, tMin, tMax, ObjectMaterials(objs))
    ensures NearestSoFar(next, cs, i + 1, tMin, tMax)
    ensures ListScan(objs, i, lib, r, tMin, tMax, rec, st) == ListScan(objs, i + 1, lib, r, tMin, tMax, rec, next)
  {
    var mr := Hit(objs[i], lib, r, tMin, st.closest, st.temp);
    MemberMaterial(objs, i);
    NearestStep(st, mr, cs, i, tMin, tMax);
    next := Advance(st, mr);
  }

  /** When every member reports its first crossing, the list's hit is the
      nearest of them: it hits iff some member's crossing lies in
      `[tMin, tMax]`, and reports the smallest such crossing. */
  lemma NearestHit(objs: seq<Hittable>, cs: seq<Option<real>>, lib: Lib, r: Ray,
                   tMin: real, tMax: Bound, rec: Record)
    requires |objs| == |cs|
    requires forall o :: o in objs ==> WellFormedScene(o)
    requires forall j :: 0 <= j < |objs| ==> FirstCrossing(objs[j], lib, r, tMin, cs[j])
    ensures var res := ListHit(objs, lib, r, tMin, tMax, rec);
            (res.hit <==> exists j :: 0 <= j < |objs| && Candidate(cs, j, tMin, tMax)) &&
            (res.hit ==> forall j :: 0 <= j < |objs| && Candidate(cs, j, tMin, tMax) ==> res.rec.t <= cs[j].value) &&
            (res.hit ==> exists j :: 0 <= j < |objs| && Candidate(cs, j, tMin, tMax) && res.rec.t == cs[j].value)
  {
    var st := ScanState(false, tMax, IndeterminateRecord(), rec);
    ScanNearest(objs, cs, 0, lib, r, tMin, tMax, rec, st);
  }

  /** A sphere's first crossing is the one `SphereCrossing` names, given a
      square root that is non-negative where the sphere test takes it. */
  lemma SphereFirstCrossing(center: Point3, radius: real, m: Material, lib: Lib, r: Ray, tMin: real)
    requires radius != 0.0
    requires var d := Discriminant(SphereQuadratic(center, radius, r)); d >= 0.0 ==> lib.sqrt(d) >= 0.0
    ensures FirstCrossing(Sphere(center, radius, m), lib, r, tMin, SphereCrossing(center, radius, lib, r, tMin))
  {
    forall b: Bound, rec: Record
      ensures var res := Hit(Sphere(center, radius, m), lib, r, tMin, b, rec);
              var c := SphereCrossing(center, radius, lib, r, tMin);
              (res.hit <==> c.Some? && InRange(c.value, tMin, b)) && (res.hit ==> res.rec.t == c.value)
    {
      SphereRootIsCrossing(center, radius, lib, r, tMin, b);
    }
  }

  /** A primitive shape: a sphere or one of the three rectangles. */
  predicate Primitive(o: Hittable)
  {
    o.Sphere? || o.RectXY? || o.RectXZ? || o.RectYZ?
  }

  /** The first crossing of a primitive shape: a sphere's per
      `SphereCrossing`, a rectangle's where the ray meets its plane inside
      it. */
  function ShapeCrossing(o: Hittable, lib: Lib, r: Ray, tMin: real): Option<real>
    requires Primitive(o)
  {
    match o
    case Sphere(center, radius, _) => SphereCrossing(center, radius, lib, r, tMin)
    case RectXY(_, x0, x1, y0, y1, k) => PlaneCrossing(x0, x1, y0, y1, k, 2, 0, 1, r)
    case RectXZ(_, x0, x1, z0, z1, k) => PlaneCrossing(x0, x1, z0, z1, k, 1, 0, 2, r)
    case RectYZ(_, z0, z1, y0, y1, k) => PlaneCrossing(z0, z1, y0, y1, k, 0, 2, 1, r)
  }

  /** Every primitive shape answers `hit` by its first crossing. */
  lemma ShapeFirstCrossing(o: Hittable, lib: Lib, r: Ray, tMin: real)
    requires Primitive(o) && WellFormedScene(o)
    requires o.Sphere? ==> var d := Discriminant(SphereQuadratic(o.center, o.radius, r));
                           d >= 0.0 ==> lib.sqrt(d) >= 0.0
    ensures FirstCrossing(o, lib, r, tMin, ShapeCrossing(o, lib, r, tMin))
  {
    match o
    case Sphere(center, radius, m) => SphereFirstCrossing(center, radius, m, lib, r, tMin);
    case RectXY(m, x0, x1, y0, y1, k) => RectXYFirstCrossing(m, x0, x1, y0, y1, k, lib, r, tMin);
    case RectXZ(m, x0, x1, z0, z1, k) => RectXZFirstCrossing(m, x0, x1, z0, z1, k, lib, r, tMin);
    case RectYZ(m, z0, z1, y0, y1, k) => RectYZFirstCrossing(m, z0, z1, y0, y1, k, lib, r, tMin);
  }

  lemma RectXYFirstCrossing(m: Material, x0: real, x1: real, y0: real, y1: real, k: real,
                            lib: Lib, r: Ray, tMin: real)
    requires x1 != x0 && y1 != y0
    ensures FirstCrossing(RectXY(m, x0, x1, y0, y1, k), lib, r, tMin, PlaneCrossing(x0, x1, y0, y1, k, 2, 0, 1, r))
  {
  }

  lemma RectXZFirstCrossing(m: Material, x0: real, x1: real, z0: real, z1: real, k: real,
                            lib: Lib, r: Ray, tMin: real)
    requires x1 != x0 && z1 != z0
    ensures FirstCrossing(RectXZ(m, x0, x1, z0, z1, k), lib, r, tMin, PlaneCrossing(x0, x1, z0, z1, k, 1, 0, 2, r))
  {
  }

  lemma RectYZFirstCrossing(m: Material, z0: real, z1: real, y0: real, y1: real, k: real,
                            lib: Lib, r: Ray, tMin: real)
    requires z1 != z0 && y1 != y0
    ensures FirstCrossing(RectYZ(m, z0, z1, y0, y1, k), lib, r, tMin, PlaneCrossing(z0, z1, y0, y1, k, 0, 2, 1, r))
  {
  }
}
