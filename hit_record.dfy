/** The record a successful intersection fills in, and `set_face_normal`.
    The record is generic in the material type so that materials, which
    read records, and shapes, which hold materials, can both use it. */
module HitRecords {
  import opened Util
  import opened Vectors
  import opened Rays

  datatype HitRecord<M> = HitRecord(
    p: Point3,
    normal: Vec3,
    t: real,
    u: real,
    v: real,
    material: Option<M>,
    frontFace: bool)

  /** The verdict of a `hit` call together with the caller's record as the
      call leaves it. */
  datatype HitResult<M> = HitResult(hit: bool, rec: HitRecord<M>)

  /** What every shape's `hit` promises its caller: a miss leaves the
      record as it was; a hit reports a parameter in `[tMin, tMax]`, the
      point of the ray at that parameter, the shape's material `m`, and a
      normal that faces the incoming ray. */
  predicate Reports<M(==)>(res: HitResult<M>, rec: HitRecord<M>, r: Ray, tMin: real, tMax: Bound, m: M)
  {
    (!res.hit ==> res.rec == rec) &&
    (res.hit ==> InRange(res.rec.t, tMin, tMax) && res.rec.p == At(r, res.rec.t) &&
                 res.rec.material == Some(m) && Dot(r.direction, res.rec.normal) <= 0.0)
  }

  /** A record that no shape has written yet: the scalar members of a
      default-initialised `hit_record` are indeterminate in C++ and are
      fixed at zero here; there is no material (a null `shared_ptr`). */
  function IndeterminateRecord<M>(): (rec: HitRecord<M>)
    ensures rec.material == None
  {
    HitRecord(Zero, Zero, 0.0, 0.0, 0.0, None, false)
  }

  /** `set_face_normal(r, outwardNormal)` on a record value. */
  function WithFaceNormal<M>(rec: HitRecord<M>, r: Ray, outwardNormal: Vec3): (res: HitRecord<M>)
    ensures res.frontFace <==> Dot(r.direction, outwardNormal) < 0.0
    ensures res.normal == if res.frontFace then outwardNormal else Neg(outwardNormal)
    ensures Dot(r.direction, res.normal) <= 0.0
    ensures res.p == rec.p && res.t == rec.t && res.u == rec.u && res.v == rec.v
    ensures res.material == rec.material
  {
    var front := Dot(r.direction, outwardNormal) < 0.0;
    rec.(frontFace := front, normal := if front then outwardNormal else Neg(outwardNormal))
  }

  /** A `hit_record` whose fields are assigned in place. */
  class HitRecordVar<M> {
    var p: Point3
    var normal: Vec3
    var t: real
    var u: real
    var v: real
    var material: Option<M>
    var frontFace: bool

    function Value(): HitRecord<M>
      reads this
    {
      HitRecord(p, normal, t, u, v, material, frontFace)
    }

    constructor (rec: HitRecord<M>)
      ensures Value() == rec
    {
      p, normal, t, u, v := rec.p, rec.normal, rec.t, rec.u, rec.v;
      material, frontFace := rec.material, rec.frontFace;
    }

    /** `set_face_normal(r, outwardNormal)`: assigns `front_face`, then
        `normal`; the other members keep their values. */
    method SetFaceNormal(r: Ray, outwardNormal: Vec3)
      modifies this
      ensures frontFace <==> Dot(r.direction, outwardNormal) < 0.0
      ensures normal == if frontFace then outwardNormal else Neg(outwardNormal)
      ensures Dot(r.direction, normal) <= 0.0
      ensures p == old(p) && t == old(t) && u == old(u) && v == old(v)
      ensures material == old(material)
      ensures Value() == WithFaceNormal(old(Value()), r, outwardNormal)
    {
      frontFace := Dot(r.direction, outwardNormal) < 0.0;
      normal := if frontFace then outwardNormal else Neg(outwardNormal);
    }
  }
}
