/** The renderer's integrator `get_ray_color`, a recursion bounded by the
    bounce depth, and the per-channel arithmetic of `write_color`. The
    `k`-th bounce of a path draws its scatter samples from `samples(k)`. */
module Integrator {
  import opened Util
  import opened Vectors
  import opened Rays
  import opened HitRecords
  import opened Materials
  import opened Numerics
  import opened Hittables

  /** The `t_min` of every world query, which keeps a scattered ray from
      hitting the surface it leaves. */
  const ShadowAcneEps: real := 0.001

  /** `Ray()`: the origin and direction are default vectors; the time,
      indeterminate in C++, is fixed at zero. */
  const DefaultRay: Ray := Ray(Zero, Zero, 0.0)

  /** The materials of `world` have the divisors their scatter needs. */
  ghost predicate WellFormedWorld(world: Hittable)
  {
    WellFormedScene(world) && forall m :: m in MaterialsIn(world) ==> WellFormed(m)
  }

  /** `world.hit(r, 0.001, infinity, rec)` on a fresh record, as
      `get_ray_color` calls it through the `hittable` interface. */
  type WorldQuery = Ray -> HitResult<Material>

  /** What `get_ray_color` relies on: a hit names a material whose scatter
      is defined. */
  ghost predicate Dispatchable(world: WorldQuery)
  {
    forall r :: world(r).hit ==> world(r).rec.material.Some? && WellFormed(world(r).rec.material.value)
  }

  /** The query of a scene object. */
  function SceneQuery(lib: Lib, world: Hittable): WorldQuery
  {
    (r: Ray) => if WellFormedScene(world) then Hit(world, lib, r, ShadowAcneEps, Infinity, IndeterminateRecord())
                else HitResult(false, IndeterminateRecord())
  }

  /** A well-formed scene answers every query dispatchably, with a hit
      parameter at or beyond `0.001` and, on a miss, the fresh record. */
  lemma SceneQueryDispatchable(lib: Lib, world: Hittable)
    requires WellFormedWorld(world)
    ensures Dispatchable(SceneQuery(lib, world))
    ensures forall r :: SceneQuery(lib, world)(r).hit ==> SceneQuery(lib, world)(r).rec.t >= ShadowAcneEps
    ensures forall r :: !SceneQuery(lib, world)(r).hit ==> SceneQuery(lib, world)(r).rec == IndeterminateRecord()
  {
    forall r
      ensures var res := SceneQuery(lib, world)(r);
              (res.hit ==> res.rec.material.Some? && WellFormed(res.rec.material.value) && res.rec.t >= ShadowAcneEps) &&
              (!res.hit ==> res.rec == IndeterminateRecord())
    {
      var res := Hit(world, lib, r, ShadowAcneEps, Infinity, IndeterminateRecord());
      assert SceneQuery(lib, world)(r) == res;
    }
  }

  /** `get_ray_color(r, world, depth, backgroundColor)`: black once the
      bounce budget is spent, the background on a miss, and otherwise the
      emission of the hit material plus its attenuation times the colour
      of the scattered ray, one bounce fewer; the emission alone when the
      material does not scatter. */
  function RayColor(lib: Lib, r: Ray, world: WorldQuery, depth: int, background: Color,
                    samples: nat -> ScatterSample, k: nat): (c: Color)
    requires Dispatchable(world)
    ensures depth <= 0 ==> c == Zero
    ensures depth > 0 && !world(r).hit ==> c == background
    decreases depth
  {
    if depth <= 0 then Zero
    else
      var res := world(r);
      if !res.hit then background
      else
        var rec := res.rec;
        var m := rec.material.value;
        var emitted := ColorEmitted(m, rec.u, rec.v, rec.p);
        var s := Scatter(m, lib, r, rec, samples(k), Zero, DefaultRay);
        if s.ok then Add(emitted, Mul(s.attenuation, RayColor(lib, s.ray, world, depth - 1, background, samples, k + 1)))
        else emitted
  }

  /** The colour of a ray is decided by the samples of its first `depth`
      bounces alone: the recursion stops after at most `depth` levels. */
  lemma {:induction false} RayColorUsesDepthSamples(lib: Lib, r: Ray, world: WorldQuery, depth: int, background: Color,
                                                   samples: nat -> ScatterSample, other: nat -> ScatterSample, k: nat)
    requires Dispatchable(world)
    requires forall j :: k <= j < k + depth ==> samples(j) == other(j)
    ensures RayColor(lib, r, world, depth, background, samples, k) == RayColor(lib, r, world, depth, background, other, k)
    decreases depth
  {
    if depth > 0 && world(r).hit {
      var rec := world(r).rec;
      var m := rec.material.value;
      assert other(k) == samples(k);
      var s := Scatter(m, lib, r, rec, samples(k), Zero, DefaultRay);
      if s.ok {
        RayColorUsesDepthSamples(lib, s.ray, world, depth - 1, background, samples, other, k + 1);
        assert RayColor(lib, r, world, depth, background, samples, k)
            == Add(Zero, Mul(s.attenuation, RayColor(lib, s.ray, world, depth - 1, background, samples, k + 1)));
      }
    }
  }

  /** Since emission through a `Material` reference is black, a black
      background leaves every ray black: nothing in the scene emits. */
  lemma {:induction false} BlackBackgroundIsBlack(lib: Lib, r: Ray, world: WorldQuery, depth: int,
                                                  samples: nat -> ScatterSample, k: nat)
    requires Dispatchable(world)
    ensures RayColor(lib, r, world, depth, Zero, samples, k) == Zero
    decreases depth
  {
    if depth > 0 {
      var res := world(r);
      if res.hit {
        var m := res.rec.material.value;
        var s := Scatter(m, lib, r, res.rec, samples(k), Zero, DefaultRay);
        if s.ok {
          BlackBackgroundIsBlack(lib, s.ray, world, depth - 1, samples, k + 1);
        }
      }
    }
  }

  /** A ray that first hits a light is black: `DiffuseLight` does not
      scatter, and its emission is not reached through `Material`. */
  lemma LightIsBlack(lib: Lib, r: Ray, world: WorldQuery, depth: int, background: Color,
                     samples: nat -> ScatterSample, k: nat)
    requires Dispatchable(world) && depth > 0
    requires world(r).hit && world(r).rec.material.value.DiffuseLight?
    ensures RayColor(lib, r, world, depth, background, samples, k) == Zero
  {
  }

  /** A world whose hits all carry materials with albedos in `[0, 1]`. */
  ghost predicate DimWorld(world: WorldQuery)
  {
    forall r :: world(r).hit && world(r).rec.material.Some? ==> Dim(world(r).rec.material.value)
  }

  /** The materials of a scene decide whether its query is dim. */
  lemma SceneQueryDim(lib: Lib, world: Hittable)
    requires WellFormedScene(world)
    requires forall m :: m in MaterialsIn(world) ==> Dim(m)
    ensures DimWorld(SceneQuery(lib, world))
  {
    forall r | SceneQuery(lib, world)(r).hit && SceneQuery(lib, world)(r).rec.material.Some?
      ensures Dim(SceneQuery(lib, world)(r).rec.material.value)
    {
      var res := Hit(world, lib, r, ShadowAcneEps, Infinity, IndeterminateRecord());
      assert SceneQuery(lib, world)(r) == res;
    }
  }

  /** With a background and albedos in `[0, 1]`, every ray colour has its
      channels in `[0, 1]`. */
  lemma {:induction false} RayColorBounded(lib: Lib, r: Ray, world: WorldQuery, depth: int, background: Color,
                                           samples: nat -> ScatterSample, k: nat)
    requires Dispatchable(world) && DimWorld(world) && UnitColor(background)
    ensures UnitColor(RayColor(lib, r, world, depth, background, samples, k))
    decreases depth
  {
    if depth > 0 {
      var res := world(r);
      if res.hit {
        var m := res.rec.material.value;
        var s := Scatter(m, lib, r, res.rec, samples(k), Zero, DefaultRay);
        if s.ok {
          ScatterAttenuationDim(m, lib, r, res.rec, samples(k), Zero, DefaultRay);
          var below := RayColor(lib, s.ray, world, depth - 1, background, samples, k + 1);
          RayColorBounded(lib, s.ray, world, depth - 1, background, samples, k + 1);
          UnitColorProduct(s.attenuation, below);
        }
      }
    }
  }

  /** The component-wise product of two colours in `[0, 1]` is one. */
  lemma UnitColorProduct(a: Color, b: Color)
    requires UnitColor(a) && UnitColor(b)
    ensures UnitColor(Add(Zero, Mul(a, b)))
  {
    var x := UnitProduct(a.x, b.x);
    var y := UnitProduct(a.y, b.y);
    var z := UnitProduct(a.z, b.z);
  }

  /** `static_cast<int>`: truncation toward zero. */
  function TruncateToInt(x: real): (n: int)
    ensures x >= 0.0 ==> n as real <= x < n as real + 1.0
    ensures x < 0.0 ==> n as real - 1.0 < x <= n as real
  {
    if x >= 0.0 then x.Floor else -((-x).Floor)
  }

  /** One channel of a pixel averaged over `samplesPerPixel` samples and
      clamped to `[0, 0.999]`. */
  function Averaged(c: real, samplesPerPixel: int): (x: real)
    requires samplesPerPixel != 0
    ensures 0.0 <= x <= 0.999
    ensures 0.0 <= c / samplesPerPixel as real <= 0.999 ==> x == c / samplesPerPixel as real
  {
    var avg := 1.0 / samplesPerPixel as real;
    Clamp(c * avg, 0.0, 0.999)
  }

  /** The value written for one channel `c` of a pixel: the averaged
      channel, square-rooted for gamma 2, scaled by 255.999 and truncated;
      a byte when the square root is exact. */
  function ChannelByte(lib: Lib, c: real, samplesPerPixel: int): (n: int)
    requires samplesPerPixel != 0
    ensures ExactSqrtAt(lib, Averaged(c, samplesPerPixel)) ==> 0 <= n <= 255
  {
    var x := Averaged(c, samplesPerPixel);
    GammaByte(lib, x);
    TruncateToInt(255.999 * lib.sqrt(x))
  }

  /** The gamma-corrected value of a channel below 1 truncates to a byte. */
  lemma GammaByte(lib: Lib, x: real)
    requires x < 1.0
    ensures ExactSqrtAt(lib, x) ==> 0 <= TruncateToInt(255.999 * lib.sqrt(x)) <= 255
  {
    var g := lib.sqrt(x);
    if ExactSqrtAt(lib, x) {
      if g >= 1.0 {
        assert g * g >= 1.0 * g;
      }
      assert 0.0 <= 255.999 * g < 256.0;
      ByteTruncation(255.999 * g);
    }
  }

  /** A real in `[0, 256)` truncates to a byte. */
  lemma ByteTruncation(y: real)
    requires 0.0 <= y < 256.0
    ensures 0 <= TruncateToInt(y) <= 255
  {
  }

  /** The three integers `write_color` writes for `pixelColor`. */
  function WriteColor(lib: Lib, pixelColor: Color, samplesPerPixel: int): (rgb: (int, int, int))
    requires samplesPerPixel != 0
    ensures rgb.0 == ChannelByte(lib, pixelColor.x, samplesPerPixel)
    ensures rgb.1 == ChannelByte(lib, pixelColor.y, samplesPerPixel)
    ensures rgb.2 == ChannelByte(lib, pixelColor.z, samplesPerPixel)
  {
    (ChannelByte(lib, pixelColor.x, samplesPerPixel),
     ChannelByte(lib, pixelColor.y, samplesPerPixel),
     ChannelByte(lib, pixelColor.z, samplesPerPixel))
  }

  /** With an exact square root, every channel written lies in `[0, 255]`. */
  lemma WriteColorInByteRange(lib: Lib, pixelColor: Color, samplesPerPixel: int)
    requires samplesPerPixel != 0
    requires forall x :: 0.0 <= x <= 0.999 ==> ExactSqrtAt(lib, x)
    ensures var rgb := WriteColor(lib, pixelColor, samplesPerPixel);
            0 <= rgb.0 <= 255 && 0 <= rgb.1 <= 255 && 0 <= rgb.2 <= 255
  {
    assert ExactSqrtAt(lib, Averaged(pixelColor.x, samplesPerPixel));
    assert ExactSqrtAt(lib, Averaged(pixelColor.y, samplesPerPixel));
    assert ExactSqrtAt(lib, Averaged(pixelColor.z, samplesPerPixel));
  }
}
