/** `HittableList`: a list of objects that grows in place, and its
    nearest-hit and bounding-box loops. */
module HittableLists {
  import opened Util
  import opened Rays
  import opened HitRecords
  import opened Materials
  import opened Numerics
  import opened Aabbs
  import opened Hittables

  class HittableList {
    var list: seq<Hittable>

    /** `HittableList()` */
    constructor ()
      ensures list == []
    {
      list := [];
    }

    /** `HittableList(object)`: an empty list to which `object` is added. */
    constructor Single(obj: Hittable)
      ensures list == [obj]
    {
      list := [];
      new;
      Add(obj);
    }

    /** `add(object)`: appends at the end. */
    method Add(obj: Hittable)
      modifies this
      ensures list == old(list) + [obj]
    {
      list := list + [obj];
    }

    /** `clear()` */
    method Clear()
      modifies this
      ensures list == []
    {
      list := [];
    }

    /** `hit(r, t_min, t_max, rec)`: the loop over the members with
        `temp_rec`, `hit_anything` and `closest_so_far`; it returns the
        verdict and the caller's record as the loop leaves it. */
    method Hit(lib: Lib, r: Ray, tMin: real, tMax: Bound, rec: Record) returns (hit: bool, out: Record)
      requires forall o :: o in list ==> WellFormedScene(o)
      ensures HitResult(hit, out) == ListHit(list, lib, r, tMin, tMax, rec)
    {
      var tempRec := IndeterminateRecord();
      var hitAnything := false;
      var closestSoFar := tMax;
      out := rec;
      for i := 0 to |list|
        invariant ScanInvariant(ScanState(hitAnything, closestSoFar, tempRec, out), rec, r, tMin, tMax, ObjectMaterials(list))
        invariant ListScan(list, 0, lib, r, tMin, tMax, rec, ScanState(false, tMax, IndeterminateRecord(), rec))
               == ListScan(list, i, lib, r, tMin, tMax, rec, ScanState(hitAnything, closestSoFar, tempRec, out))
      {
        var res := Hittables.Hit(list[i], lib, r, tMin, closestSoFar, tempRec);
        MemberMaterial(list, i);
        tempRec := res.rec;
        if res.hit {
          hitAnything := true;
          closestSoFar := Finite(tempRec.t);
          out := tempRec;
        }
      }
      hit := hitAnything;
    }

    /** `boundingBox(time0, time1, output_box)`: `output_box` is reset to
        the default box, then surrounded in place by every member's box. */
    method BoundingBox(outputBox: AabbVar) returns (foundAnything: bool)
      requires outputBox.Valid()
      requires forall o :: o in list ==> WellFormedScene(o)
      modifies outputBox.minPoint.v, outputBox.maxPoint.v
      ensures outputBox.Valid()
      ensures BoxResult(foundAnything, outputBox.Value()) == Hittables.BoundingBox(List(list), DefaultBox)
    {
      var objs := list;
      foundAnything := false;
      outputBox.AssignDefault();
      for i := 0 to |objs|
        invariant outputBox.Valid()
        invariant ListBox(objs, 0, BoxResult(false, DefaultBox))
               == ListBox(objs, i, BoxResult(foundAnything, outputBox.Value()))
      {
        ghost var before := BoxResult(foundAnything, outputBox.Value());
        var temp := Hittables.BoundingBox(objs[i], DefaultBox);
        if temp.ok {
          foundAnything := true;
          outputBox.Surround(temp.box);
        }
        assert BoxResult(foundAnything, outputBox.Value())
            == if temp.ok then BoxResult(true, Surrounded(before.box, temp.box)) else before;
      }
    }
  }
}
