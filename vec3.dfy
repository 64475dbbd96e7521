/** Three-component vectors (`Vec3`, also used as `Point3` and `Color`):
    the free operators as functions on values, and `Vec3Var`, a vector
    whose three-element array is updated in place by `+=`, `*=`, `/=` and
    the mutable `operator[]`. */
module Vectors {
  import opened Util

  datatype Vec3 = Vec3(x: real, y: real, z: real)

  type Point3 = Vec3
  type Color = Vec3

  /** `Vec3()`: every component zero; also `COLOR_BLACK`. */
  const Zero: Vec3 := Vec3(0.0, 0.0, 0.0)
  const White: Color := Vec3(1.0, 1.0, 1.0)

  /** `v[i]` (the source asserts `0 <= i < 3`). */
  function Index(v: Vec3, i: int): real
    requires 0 <= i < 3
  {
    if i == 0 then v.x else if i == 1 then v.y else v.z
  }

  /** The vector after `v[i] = c`. */
  function WithIndex(v: Vec3, i: int, c: real): (w: Vec3)
    requires 0 <= i < 3
    ensures Index(w, i) == c
    ensures forall j :: 0 <= j < 3 && j != i ==> Index(w, j) == Index(v, j)
  {
    if i == 0 then v.(x := c) else if i == 1 then v.(y := c) else v.(z := c)
  }

  function Neg(v: Vec3): Vec3
  {
    Vec3(-v.x, -v.y, -v.z)
  }

  function Add(v: Vec3, u: Vec3): Vec3
  {
    Vec3(v.x + u.x, v.y + u.y, v.z + u.z)
  }

  function Sub(v: Vec3, u: Vec3): Vec3
  {
    Vec3(v.x - u.x, v.y - u.y, v.z - u.z)
  }

  /** Component-wise product `v * u`. */
  function Mul(v: Vec3, u: Vec3): Vec3
  {
    Vec3(v.x * u.x, v.y * u.y, v.z * u.z)
  }

  /** `v * t`; `t * v` is defined as `v * t` in the source. */
  function Scale(v: Vec3, t: real): Vec3
  {
    Vec3(v.x * t, v.y * t, v.z * t)
  }

  /** `v / t`, which the source computes as `(1 / t) * v`. */
  function DivScalar(v: Vec3, t: real): Vec3
    requires t != 0.0
  {
    Scale(v, 1.0 / t)
  }

  /** `v + offset` for a scalar offset. */
  function AddScalar(v: Vec3, offset: real): (w: Vec3)
    ensures forall i :: 0 <= i < 3 ==> Index(w, i) == Index(v, i) + offset
  {
    Vec3(v.x + offset, v.y + offset, v.z + offset)
  }

  /** `v - offset` for a scalar offset. */
  function SubScalar(v: Vec3, offset: real): (w: Vec3)
    ensures forall i :: 0 <= i < 3 ==> Index(w, i) == Index(v, i) - offset
    ensures AddScalar(w, offset) == v
  {
    Vec3(v.x - offset, v.y - offset, v.z - offset)
  }

  function Dot(v: Vec3, u: Vec3): real
  {
    v.x * u.x + v.y * u.y + v.z * u.z
  }

  function Cross(v: Vec3, u: Vec3): Vec3
  {
    Vec3(v.y * u.z - v.z * u.y,
         v.z * u.x - v.x * u.z,
         v.x * u.y - v.y * u.x)
  }

  function LengthSquared(v: Vec3): real
  {
    v.x * v.x + v.y * v.y + v.z * v.z
  }

  function Abs(a: real): real
  {
    if a < 0.0 then -a else a
  }

  /** The threshold of `near_zero`. */
  const NearZeroEps: real := 0.00000001

  predicate NearZero(v: Vec3)
  {
    Abs(v.x) < NearZeroEps && Abs(v.y) < NearZeroEps && Abs(v.z) < NearZeroEps
  }

  /** `reflect(v, n) = v - 2 * dot(v, n) * n` */
  function Reflect(v: Vec3, n: Vec3): Vec3
  {
    Sub(v, Scale(n, 2.0 * Dot(v, n)))
  }

  /** `random_in_hemisphere(normal)`, given the point `p` that
      `random_in_unit_sphere()` returned: `p` when it lies on the normal's
      side (`dot(p, normal) > 0`), `-p` otherwise. */
  function RandomInHemisphere(p: Vec3, normal: Vec3): (r: Vec3)
    ensures r == p || r == Neg(p)
    ensures Dot(r, normal) >= 0.0
    ensures LengthSquared(r) == LengthSquared(p)
  {
    if Dot(p, normal) > 0.0 then p else Neg(p)
  }

  /** `refract(v, n, eta)` with `std::sqrt` supplied as `sqrt`. */
  function Refract(v: Vec3, n: Vec3, etaOverEtaPrime: real, sqrt: real -> real): Vec3
  {
    var cosTheta := StdMin(Dot(Neg(v), n), 1.0);
    var rOutPerp := Scale(Add(v, Scale(n, cosTheta)), etaOverEtaPrime);
    var rOutParallel := Scale(n, -sqrt(Abs(1.0 - LengthSquared(rOutPerp))));
    Add(rOutPerp, rOutParallel)
  }

  lemma LengthSquaredIsDot(v: Vec3)
    ensures LengthSquared(v) == Dot(v, v)
    ensures LengthSquared(v) >= 0.0
    ensures v != Zero ==> LengthSquared(v) > 0.0
  {
    var sx := Square(v.x);
    var sy := Square(v.y);
    var sz := Square(v.z);
    assert LengthSquared(v) == sx + sy + sz;
  }

  /** The square `s` of `a`, which is non-negative and positive unless `a`
      is zero. */
  lemma Square(a: real) returns (s: real)
    ensures s == a * a
    ensures s >= 0.0
    ensures a != 0.0 ==> s > 0.0
  {
    s := a * a;
    if a > 0.0 {
      calc { s; == a * a; > 0.0 * a; == 0.0; }
    } else if a < 0.0 {
      calc { s; == a * a; == (-a) * (-a); > 0.0 * (-a); == 0.0; }
    } else {
      calc { s; == 0.0 * 0.0; == 0.0; }
    }
  }

  /** For non-negative reals, squaring preserves strict order both ways. */
  lemma SquareMonotone(b: real, e: real)
    requires 0.0 <= b && 0.0 <= e
    ensures b < e <==> b * b < e * e
  {
    if b < e {
      calc { b * b; <= b * e; < e * e; }
    } else {
      calc { e * e; <= e * b; <= b * b; }
    }
  }

  /** `cross(v, u)` is orthogonal to both of its arguments. */
  lemma CrossOrthogonal(v: Vec3, u: Vec3)
    ensures Dot(Cross(v, u), v) == 0.0
    ensures Dot(Cross(v, u), u) == 0.0
  {
  }

  lemma DotScaleRight(v: Vec3, n: Vec3, k: real)
    ensures Dot(v, Scale(n, k)) == k * Dot(v, n)
  {
  }

  /** Reflection about a unit normal flips the normal component. */
  lemma ReflectFlipsNormal(v: Vec3, n: Vec3)
    requires Dot(n, n) == 1.0
    ensures Dot(Reflect(v, n), n) == -Dot(v, n)
  {
    var d := Dot(v, n);
    calc {
      Dot(Reflect(v, n), n);
      Dot(v, n) - Dot(Scale(n, 2.0 * d), n);
      { assert Dot(Scale(n, 2.0 * d), n) == (2.0 * d) * Dot(n, n); }
      d - (2.0 * d) * 1.0;
    }
  }

  lemma BelowEpsIffSquare(a: real)
    ensures Abs(a) < NearZeroEps <==> a * a < NearZeroEps * NearZeroEps
  {
    assert a * a == Abs(a) * Abs(a);
    SquareMonotone(Abs(a), NearZeroEps);
  }

  /** `near_zero()`: within the 1e-8 cube around the origin; so the squared
      length is below 3e-16, and a squared length below 1e-16 is near zero. */
  lemma NearZeroMeansShort(v: Vec3)
    ensures NearZero(v) ==> LengthSquared(v) < 3.0 * NearZeroEps * NearZeroEps
    ensures LengthSquared(v) < NearZeroEps * NearZeroEps ==> NearZero(v)
  {
    var sx := Square(v.x);
    var sy := Square(v.y);
    var sz := Square(v.z);
    BelowEpsIffSquare(v.x);
    BelowEpsIffSquare(v.y);
    BelowEpsIffSquare(v.z);
    var e2 := NearZeroEps * NearZeroEps;
    assert LengthSquared(v) == sx + sy + sz;
    assert 3.0 * NearZeroEps * NearZeroEps == 3.0 * e2;
  }

  /** `+`, `-` and unary `-` form the additive group of vectors. */
  lemma AddGroup(v: Vec3, u: Vec3)
    ensures Add(v, u) == Add(u, v)
    ensures Sub(Add(v, u), u) == v && Add(Sub(v, u), u) == v
    ensures Sub(v, u) == Add(v, Neg(u))
    ensures Add(v, Neg(v)) == Zero && Add(v, Zero) == v
    ensures Neg(Neg(v)) == v && Neg(v) == Scale(v, -1.0)
  {
  }

  /** The component-wise product is commutative, with `White` as unit and
      `Zero` as annihilator. */
  lemma MulUnit(v: Vec3, u: Vec3)
    ensures Mul(v, u) == Mul(u, v)
    ensures Mul(v, White) == v && Mul(v, Zero) == Zero
  {
  }

  /** `v / t` undoes `v * t`, and the other way round. */
  lemma DivUndoesScale(v: Vec3, t: real)
    requires t != 0.0
    ensures DivScalar(Scale(v, t), t) == v
    ensures Scale(DivScalar(v, t), t) == v
  {
    var inv := 1.0 / t;
    assert t * inv == 1.0;
    assert v.x * t * inv == v.x * (t * inv);
    assert v.y * t * inv == v.y * (t * inv);
    assert v.z * t * inv == v.z * (t * inv);
    assert v.x * inv * t == v.x * (t * inv);
    assert v.y * inv * t == v.y * (t * inv);
    assert v.z * inv * t == v.z * (t * inv);
  }

  /** Lagrange's identity: `|v x u|^2 == |v|^2 |u|^2 - (v . u)^2`. */
  lemma CrossLength(v: Vec3, u: Vec3)
    ensures LengthSquared(Cross(v, u)) == LengthSquared(v) * LengthSquared(u) - Dot(v, u) * Dot(v, u)
  {
  }

  /** `dot` is symmetric and linear in its first argument. */
  lemma DotBilinear(v: Vec3, u: Vec3, w: Vec3, k: real)
    ensures Dot(v, u) == Dot(u, v)
    ensures Dot(Add(v, u), w) == Dot(v, w) + Dot(u, w)
    ensures Dot(Sub(v, u), w) == Dot(v, w) - Dot(u, w)
    ensures Dot(Scale(v, k), w) == k * Dot(v, w)
  {
  }

  /** `cross` is antisymmetric, so a vector crossed with itself is zero. */
  lemma CrossAntisymmetric(v: Vec3, u: Vec3)
    ensures Cross(v, u) == Neg(Cross(u, v))
    ensures Cross(v, v) == Zero
  {
  }

  /** Scaling by `t` scales the squared length by `t * t`. */
  lemma LengthSquaredScale(v: Vec3, t: real)
    ensures LengthSquared(Scale(v, t)) == t * t * LengthSquared(v)
  {
  }

  /** `|v - k n|^2` expanded. */
  lemma SubScaleLength(v: Vec3, n: Vec3, k: real)
    ensures LengthSquared(Sub(v, Scale(n, k))) == LengthSquared(v) - 2.0 * k * Dot(v, n) + k * k * LengthSquared(n)
  {
  }

  /** Reflection about a unit normal is its own inverse and keeps the
      squared length. */
  lemma {:induction false} ReflectInvolutive(v: Vec3, n: Vec3)
    requires Dot(n, n) == 1.0
    ensures Reflect(Reflect(v, n), n) == v
    ensures LengthSquared(Reflect(v, n)) == LengthSquared(v)
  {
    var d := Dot(v, n);
    var r := Reflect(v, n);
    ReflectFlipsNormal(v, n);
    assert r == Sub(v, Scale(n, 2.0 * d));
    assert Reflect(r, n) == Sub(r, Scale(n, -(2.0 * d)));
    SubScaleLength(v, n, 2.0 * d);
    LengthSquaredIsDot(n);
    var k := 2.0 * d;
    assert LengthSquared(r) == LengthSquared(v) - 2.0 * k * d + k * k;
    assert 2.0 * k * d == k * k;
  }

  /** The scalar identity behind `TangentOfCombination`, one component at a
      time. */
  lemma TangentComponent(rc: real, vc: real, nc: real, eta: real, d: real, k: real)
    requires rc == vc * eta + nc * k
    ensures rc - nc * (eta * d + k) == (vc - nc * d) * eta
  {
  }

  /** `dot(eta v + k n, n)` expanded. */
  lemma DotCombination(vx: real, vy: real, vz: real, nx: real, ny: real, nz: real, eta: real, k: real)
    requires nx * nx + ny * ny + nz * nz == 1.0
    ensures (vx * eta + nx * k) * nx + (vy * eta + ny * k) * ny + (vz * eta + nz * k) * nz
            == eta * (vx * nx + vy * ny + vz * nz) + k
  {
    assert (vx * eta + nx * k) * nx + (vy * eta + ny * k) * ny + (vz * eta + nz * k) * nz
           == eta * (vx * nx + vy * ny + vz * nz) + k * (nx * nx + ny * ny + nz * nz);
  }

  /** One component of `refract`'s sum, regrouped. */
  lemma RefractComponent(rc: real, vc: real, nc: real, c: real, eta: real, s: real)
    requires rc == (vc + nc * c) * eta + nc * -s
    ensures rc == vc * eta + nc * (eta * c - s)
  {
  }

  /** `refract`'s sum `eta (v + c n) - s n` regrouped as `eta v + (eta c - s) n`. */
  lemma {:induction false} RefractRegroup(r: Vec3, v: Vec3, n: Vec3, c: real, eta: real, s: real)
    requires r == Add(Scale(Add(v, Scale(n, c)), eta), Scale(n, -s))
    ensures r == Add(Scale(v, eta), Scale(n, eta * c - s))
  {
    RefractComponent(r.x, v.x, n.x, c, eta, s);
    RefractComponent(r.y, v.y, n.y, c, eta, s);
    RefractComponent(r.z, v.z, n.z, c, eta, s);
  }

  /** `refract` scales the incident direction's part tangential to the
      unit normal by the index ratio. */
  lemma {:induction false} RefractKeepsTangent(v: Vec3, n: Vec3, eta: real, sqrt: real -> real)
    requires Dot(n, n) == 1.0
    ensures var r := Refract(v, n, eta, sqrt);
            Sub(r, Scale(n, Dot(r, n))) == Scale(Sub(v, Scale(n, Dot(v, n))), eta)
  {
    var c := StdMin(Dot(Neg(v), n), 1.0);
    var rOutPerp := Scale(Add(v, Scale(n, c)), eta);
    var s := sqrt(Abs(1.0 - LengthSquared(rOutPerp)));
    var k := eta * c - s;
    var r := Refract(v, n, eta, sqrt);
    assert r == Add(rOutPerp, Scale(n, -s));
    RefractRegroup(r, v, n, c, eta, s);
    TangentOfCombination(v, n, eta, k);
  }

  /** For a unit `n`, the part of `eta v + k n` tangential to `n` is `eta`
      times that of `v`. */
  lemma {:induction false} TangentOfCombination(v: Vec3, n: Vec3, eta: real, k: real)
    requires Dot(n, n) == 1.0
    ensures var r := Add(Scale(v, eta), Scale(n, k));
            Sub(r, Scale(n, Dot(r, n))) == Scale(Sub(v, Scale(n, Dot(v, n))), eta)
  {
    var r := Add(Scale(v, eta), Scale(n, k));
    var d := Dot(v, n);
    assert Dot(r, n) == eta * d + k by {
      DotCombination(v.x, v.y, v.z, n.x, n.y, n.z, eta, k);
    }
    TangentOfSum(r, v, n, eta, d, k);
  }

  /** `(eta v + k n) - (eta d + k) n == eta (v - d n)`, for any scalar `d`. */
  lemma {:induction false} TangentOfSum(r: Vec3, v: Vec3, n: Vec3, eta: real, d: real, k: real)
    requires r == Add(Scale(v, eta), Scale(n, k))
    ensures Sub(r, Scale(n, eta * d + k)) == Scale(Sub(v, Scale(n, d)), eta)
  {
    TangentComponent(r.x, v.x, n.x, eta, d, k);
    TangentComponent(r.y, v.y, n.y, eta, d, k);
    TangentComponent(r.z, v.z, n.z, eta, d, k);
  }

  /** A `Vec3` object: the array `v` of three components, updated in place. */
  class Vec3Var {
    const v: array<real>

    ghost predicate Valid()
      reads this
    {
      v.Length == 3
    }

    function Value(): Vec3
      reads this, v
      requires Valid()
    {
      Vec3(v[0], v[1], v[2])
    }

    /** `Vec3(x, y, z)` */
    constructor (x: real, y: real, z: real)
      ensures Valid() && fresh(v)
      ensures Value() == Vec3(x, y, z)
    {
      var a := new real[3];
      a[0], a[1], a[2] := x, y, z;
      v := a;
    }

    /** `Vec3()` */
    constructor Default()
      ensures Valid() && fresh(v)
      ensures Value() == Zero
    {
      var a := new real[3];
      a[0], a[1], a[2] := 0.0, 0.0, 0.0;
      v := a;
    }

    /** `operator[](i) const` */
    method Get(i: int) returns (c: real)
      requires Valid() && 0 <= i < 3
      ensures c == Index(Value(), i)
    {
      c := v[i];
    }

    /** Assignment through the mutable `operator[](i)`. */
    method Set(i: int, c: real)
      requires Valid() && 0 <= i < 3
      modifies v
      ensures Valid()
      ensures Value() == WithIndex(old(Value()), i, c)
    {
      v[i] := c;
    }

    /** Copy assignment `= w`. */
    method Assign(w: Vec3)
      requires Valid()
      modifies v
      ensures Valid()
      ensures Value() == w
    {
      v[0], v[1], v[2] := w.x, w.y, w.z;
    }

    /** `+= other` */
    method AddAssign(other: Vec3)
      requires Valid()
      modifies v
      ensures Valid()
      ensures Value() == Add(old(Value()), other)
    {
      v[0] := v[0] + other.x;
      v[1] := v[1] + other.y;
      v[2] := v[2] + other.z;
    }

    /** `*= scalar` */
    method MulAssign(scalar: real)
      requires Valid()
      modifies v
      ensures Valid()
      ensures Value() == Scale(old(Value()), scalar)
    {
      v[0] := v[0] * scalar;
      v[1] := v[1] * scalar;
      v[2] := v[2] * scalar;
    }

    /** `/= scalar`, implemented as `*= 1 / scalar`. */
    method DivAssign(scalar: real)
      requires Valid() && scalar != 0.0
      modifies v
      ensures Valid()
      ensures Value() == DivScalar(old(Value()), scalar)
    {
      MulAssign(1.0 / scalar);
    }
  }
}
