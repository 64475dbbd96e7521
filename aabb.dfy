/** Axis-aligned bounding boxes: the slab test `hit` and `surround`, which
    as written keeps the minimum corner and replaces the maximum corner by
    the other box's maximum. */
module Aabbs {
  import opened Util
  import opened Vectors
  import opened Rays

  datatype Aabb = Aabb(minPoint: Point3, maxPoint: Point3)

  /** `aabb()`: both corners at the origin. */
  const DefaultBox: Aabb := Aabb(Zero, Zero)

  /** The verdict of a `boundingBox` call and its `output_box` as the call
      leaves it. */
  datatype BoxResult = BoxResult(ok: bool, box: Aabb)

  /** One axis of `surround`: `max(min(minPoint[i], o), o)`, which is `o`. */
  function SurroundAxis(minCoord: real, otherMax: real): (r: real)
    ensures r == otherMax
  {
    StdMax(StdMin(minCoord, otherMax), otherMax)
  }

  /** The box after `box.surround(other)`. */
  function Surrounded(box: Aabb, other: Aabb): (res: Aabb)
    ensures res.minPoint == box.minPoint
    ensures res.maxPoint == other.maxPoint
    ensures forall i :: 0 <= i < 3 ==>
      Index(res.maxPoint, i) == SurroundAxis(Index(box.minPoint, i), Index(other.maxPoint, i))
  {
    Aabb(box.minPoint,
         Vec3(SurroundAxis(box.minPoint.x, other.maxPoint.x),
              SurroundAxis(box.minPoint.y, other.maxPoint.y),
              SurroundAxis(box.minPoint.z, other.maxPoint.z)))
  }

  /** `t0` and `t1` of one slab, the smaller and the larger of the two
      plane distances `x0Ax / bx` and `x1Ax / bx`. */
  function SlabInterval(x0Ax: real, x1Ax: real, bx: real): (ts: (real, real))
    requires bx != 0.0
    ensures ts.0 <= ts.1
    ensures {ts.0, ts.1} == {x0Ax / bx, x1Ax / bx}
  {
    (StdMin(x0Ax / bx, x1Ax / bx), StdMax(x0Ax / bx, x1Ax / bx))
  }

  /** `p` lies in the closed box. */
  predicate Contains(box: Aabb, p: Point3)
  {
    box.minPoint.x <= p.x <= box.maxPoint.x &&
    box.minPoint.y <= p.y <= box.maxPoint.y &&
    box.minPoint.z <= p.z <= box.maxPoint.z
  }

  /** What one iteration of the slab loop does to the running interval. */
  datatype SlabStep = Unbounded | Interval(tMin: real, tMax: Bound)

  /** Axis `i` of the slab loop. A zero direction component makes both
      quotients IEEE infinities or NaNs; an infinite `t0` or `t1` enters
      `t_min` or `t_max` and the box is hit from then on (`Unbounded`); when
      the origin lies on the minimum plane, `t0` and `t1` are NaN, which
      `std::min` and `std::max` pass over, and the interval is kept. */
  function AxisStep(box: Aabb, r: Ray, i: int, tMin: real, tMax: Bound): (s: SlabStep)
    requires 0 <= i < 3
    ensures s.Interval? ==> s.tMin <= tMin
    ensures s.Interval? ==> forall t :: !Exceeds(t, tMax) ==> !Exceeds(t, s.tMax)
    ensures Index(r.direction, i) == 0.0 ==>
              (s.Unbounded? <==> Index(box.minPoint, i) != Index(r.origin, i))
  {
    var x0Ax := Index(box.minPoint, i) - Index(r.origin, i);
    var x1Ax := Index(box.maxPoint, i) - Index(r.origin, i);
    var bx := Index(r.direction, i);
    if bx == 0.0 then
      if x0Ax != 0.0 then Unbounded else Interval(tMin, tMax)
    else
      var ts := SlabInterval(x0Ax, x1Ax, bx);
      Interval(StdMin(tMin, ts.0), MaxBound(tMax, ts.1))
  }

  /** The verdict of the slab loop started at axis `i` with the running
      interval `[tMin, tMax]`. */
  function Slabs(box: Aabb, r: Ray, tMin: real, tMax: Bound, i: int): bool
    requires 0 <= i <= 3
    decreases 3 - i
  {
    if i == 3 then true
    else
      match AxisStep(box, r, i, tMin, tMax)
      case Unbounded => true
      case Interval(lo, hi) => !AtMost(hi, lo) && Slabs(box, r, lo, hi, i + 1)
  }

  /** `aabb::hit(ray, t_min, t_max)`: it can only answer false when the
      interval it is given is empty or a single point. */
  function HitBox(box: Aabb, r: Ray, tMin: real, tMax: Bound): (b: bool)
    ensures !b ==> AtMost(tMax, tMin)
  {
    if AtMost(tMax, tMin) then Slabs(box, r, tMin, tMax, 0)
    else
      SlabsOpenInterval(box, r, tMin, tMax, 0);
      Slabs(box, r, tMin, tMax, 0)
  }

  /** The loop only widens its interval, so an interval that is open on
      entry stays open and the box is hit, wherever it lies. */
  lemma {:induction false} SlabsOpenInterval(box: Aabb, r: Ray, tMin: real, tMax: Bound, i: int)
    requires 0 <= i <= 3
    requires !AtMost(tMax, tMin)
    ensures Slabs(box, r, tMin, tMax, i)
    decreases 3 - i
  {
    if i < 3 {
      match AxisStep(box, r, i, tMin, tMax)
      case Unbounded =>
      case Interval(lo, hi) =>
        assert !AtMost(hi, lo) by {
          if hi.Finite? {
            assert !Exceeds(hi.value, hi);
            assert !Exceeds(tMin, tMax) by {
              if tMax.Finite? { assert tMin < tMax.value; }
            }
          }
        }
        SlabsOpenInterval(box, r, lo, hi, i + 1);
    }
  }

  /** `hit` answers false only when the interval it was given is already
      empty or a single point: `t_max <= t_min` on entry. */
  lemma MissMeansClosedInterval(box: Aabb, r: Ray, tMin: real, tMax: Bound)
    ensures !HitBox(box, r, tMin, tMax) ==> AtMost(tMax, tMin)
    ensures tMax == Infinity ==> HitBox(box, r, tMin, tMax)
  {
    if !AtMost(tMax, tMin) {
      SlabsOpenInterval(box, r, tMin, tMax, 0);
    }
  }

  /** A ray that starts outside the unit box and travels away from it is
      still reported as hitting it. */
  lemma BoxBehindRayIsHit()
    ensures HitBox(Aabb(Zero, Vec3(1.0, 1.0, 1.0)),
                   Ray(Vec3(5.0, 5.0, 5.0), Vec3(1.0, 1.0, 1.0), 0.0), 0.001, Finite(10.0))
  {
    SlabsOpenInterval(Aabb(Zero, Vec3(1.0, 1.0, 1.0)),
                      Ray(Vec3(5.0, 5.0, 5.0), Vec3(1.0, 1.0, 1.0), 0.0), 0.001, Finite(10.0), 0);
  }

  /** Surrounding `[(0,0,0), (1,1,1)]` with `[(2,-1,0), (3,2,1)]` gives
      `[(0,0,0), (3,2,1)]`: the result is not the union's box (its minimum
      would be `(0,-1,0)`). */
  lemma SurroundIsNotUnion()
    ensures Surrounded(Aabb(Zero, Vec3(1.0, 1.0, 1.0)), Aabb(Vec3(2.0, -1.0, 0.0), Vec3(3.0, 2.0, 1.0)))
         == Aabb(Zero, Vec3(3.0, 2.0, 1.0))
  {
  }

  /** An `aabb` object whose corners are updated in place. */
  class AabbVar {
    const minPoint: Vec3Var
    const maxPoint: Vec3Var

    ghost predicate Valid()
      reads this, minPoint, maxPoint
    {
      minPoint.Valid() && maxPoint.Valid() && minPoint.v != maxPoint.v
    }

    function Value(): Aabb
      reads this, minPoint, maxPoint, minPoint.v, maxPoint.v
      requires Valid()
    {
      Aabb(minPoint.Value(), maxPoint.Value())
    }

    /** `aabb()` */
    constructor Default()
      ensures Valid() && fresh(minPoint) && fresh(minPoint.v) && fresh(maxPoint) && fresh(maxPoint.v)
      ensures Value() == DefaultBox
    {
      minPoint := new Vec3Var.Default();
      maxPoint := new Vec3Var.Default();
    }

    /** `aabb(min_, max_)` */
    constructor (minCorner: Point3, maxCorner: Point3)
      ensures Valid() && fresh(minPoint) && fresh(minPoint.v) && fresh(maxPoint) && fresh(maxPoint.v)
      ensures Value() == Aabb(minCorner, maxCorner)
    {
      minPoint := new Vec3Var(minCorner.x, minCorner.y, minCorner.z);
      maxPoint := new Vec3Var(maxCorner.x, maxCorner.y, maxCorner.z);
    }

    /** `minimum()` */
    function Minimum(): (p: Point3)
      reads this, minPoint, maxPoint, minPoint.v, maxPoint.v
      requires Valid()
      ensures p == Value().minPoint
    {
      minPoint.Value()
    }

    /** `maximum()` */
    function Maximum(): (p: Point3)
      reads this, minPoint, maxPoint, minPoint.v, maxPoint.v
      requires Valid()
      ensures p == Value().maxPoint
    {
      maxPoint.Value()
    }

    /** `= aabb()`: both corners back at the origin. */
    method AssignDefault()
      requires Valid()
      modifies minPoint.v, maxPoint.v
      ensures Valid()
      ensures Value() == DefaultBox
    {
      minPoint.Assign(Zero);
      maxPoint.Assign(Zero);
    }

    /** `hit(ray, t_min, t_max)`: the slab loop over the three axes with its
        early exits; it changes neither the box nor anything else. */
    method Hit(r: Ray, tMin: real, tMax: Bound) returns (hit: bool)
      requires Valid()
      ensures hit == HitBox(Value(), r, tMin, tMax)
    {
      var box := Value();
      var lo, hi := tMin, tMax;
      for i := 0 to 3
        invariant Slabs(box, r, tMin, tMax, 0) == Slabs(box, r, lo, hi, i)
      {
        var x0Ax := Index(Minimum(), i) - Index(r.origin, i);
        var x1Ax := Index(Maximum(), i) - Index(r.origin, i);
        var bx := Index(r.direction, i);
        ghost var step := AxisStep(box, r, i, lo, hi);
        if bx == 0.0 {
          if x0Ax != 0.0 {
            assert step == Unbounded;
            return true;
          }
          assert step == Interval(lo, hi);
        } else {
          var t0 := StdMin(x0Ax / bx, x1Ax / bx);
          var t1 := StdMax(x0Ax / bx, x1Ax / bx);
          assert step == Interval(StdMin(lo, t0), MaxBound(hi, t1));
          lo := StdMin(lo, t0);
          hi := MaxBound(hi, t1);
        }
        if AtMost(hi, lo) {
          return false;
        }
      }
      return true;
    }

    /** `surround(other)`: on each axis `maxPoint[i]` is assigned
        `min(minPoint[i], other.maximum()[i])`, then the maximum of that and
        `other.maximum()[i]`. */
    method Surround(other: Aabb)
      requires Valid()
      modifies maxPoint.v
      ensures Valid()
      ensures minPoint.Value() == old(minPoint.Value())
      ensures Value() == Surrounded(old(Value()), other)
    {
      for i := 0 to 3
        invariant Valid()
        invariant minPoint.Value() == old(minPoint.Value())
        invariant forall j :: 0 <= j < i ==> Index(maxPoint.Value(), j) == Index(other.maxPoint, j)
        invariant forall j :: i <= j < 3 ==> Index(maxPoint.Value(), j) == Index(old(maxPoint.Value()), j)
      {
        var m := minPoint.Get(i);
        maxPoint.Set(i, StdMin(m, Index(other.maxPoint, i)));
        var cur := maxPoint.Get(i);
        maxPoint.Set(i, StdMax(cur, Index(other.maxPoint, i)));
      }
      assert maxPoint.Value() == other.maxPoint by {
        assert Index(maxPoint.Value(), 0) == other.maxPoint.x;
        assert Index(maxPoint.Value(), 1) == other.maxPoint.y;
        assert Index(maxPoint.Value(), 2) == other.maxPoint.z;
      }
    }
  }
}
