/** Materials and their scatter rules. `Material` is closed over the four
    kinds the renderer defines. Each rule receives the random samples it
    would draw: a point of the unit ball (`random_in_unit_sphere()`) and one
    `rand()` value. */
module Materials {
  import opened Util
  import opened Vectors
  import opened Rays
  import opened Textures
  import opened HitRecords
  import opened Numerics

  datatype Material =
    | Lambertian(albedo: Texture)
    | Metal(color: Color, fuzz: real)
    | Dielectric(refractionIndex: real)
    | DiffuseLight(emit: Texture)

  type Record = HitRecord<Material>

  /** The random values one `scatter` call may consume. */
  datatype ScatterSample = ScatterSample(inUnitSphere: Vec3, draw: RandDraw)

  /** The verdict of `scatter` and its two out-parameters as it leaves them. */
  datatype Scattered = Scattered(ok: bool, attenuation: Color, ray: Ray)

  /** `Lambertian(const Color&)`: a solid-colour albedo. */
  function LambertianColor(a: Color): (m: Material)
    ensures m.Lambertian? && forall u, v, p :: Value(m.albedo, u, v, p) == a
  {
    Lambertian(SolidColor(a))
  }

  /** `Metal(albedo, fuzz)`: the fuzz is capped at 1. */
  function MakeMetal(albedo: Color, fuzz: real): (m: Material)
    ensures m.Metal? && m.color == albedo
    ensures m.fuzz <= 1.0
    ensures fuzz <= 1.0 ==> m.fuzz == fuzz
  {
    Metal(albedo, StdMin(fuzz, 1.0))
  }

  /** `DiffuseLight(Color)`: a solid-colour emission. */
  function DiffuseLightColor(c: Color): (m: Material)
    ensures m.DiffuseLight? && forall u, v, p :: Value(m.emit, u, v, p) == c
  {
    DiffuseLight(SolidColor(c))
  }

  /** The refraction index of a dielectric is positive: its reciprocal and
      Schlick's ratio are then defined. */
  predicate WellFormed(m: Material)
  {
    m.Dielectric? ==> m.refractionIndex > 0.0
  }

  /** `Material::color_emitted`. `DiffuseLight` declares its own
      `color_emitted` without `const`, so that one does not override this
      and a call through a `Material` reference yields black for every
      material. */
  function ColorEmitted(m: Material, u: real, v: real, p: Point3): (c: Color)
    ensures c == Zero
  {
    Zero
  }

  /** `DiffuseLight::color_emitted`, reachable only through a
      `DiffuseLight` reference. */
  function LightEmitted(emit: Texture, u: real, v: real, p: Point3): (c: Color)
    ensures forall u', v', p' :: c == Value(emit, u', v', p')
  {
    Value(emit, u, v, p)
  }

  /** `x` to the fifth power, as `pow(x, 5)` computes it. */
  function Pow5(x: real): real
  {
    x * x * x * x * x
  }

  /** `reflectance(cosine, ref_idx)`: Schlick's approximation. */
  function Reflectance(cosine: real, refIdx: real): (r: real)
    requires refIdx != -1.0
    ensures cosine == 0.0 ==> r == 1.0
    ensures cosine == 1.0 ==> r == NormalReflectance(refIdx)
  {
    var q := (1.0 - refIdx) / (1.0 + refIdx);
    var r0 := q * q;
    r0 + (1.0 - r0) * Pow5(1.0 - cosine)
  }

  /** `r0`, the reflectance at normal incidence. */
  function NormalReflectance(refIdx: real): real
    requires refIdx != -1.0
  {
    var q := (1.0 - refIdx) / (1.0 + refIdx);
    q * q
  }

  lemma {:induction false} UnitPowers(x: real)
    requires 0.0 <= x <= 1.0
    ensures 0.0 <= Pow5(x) <= 1.0
  {
    var x2 := UnitProduct(x, x);
    var x3 := UnitProduct(x2, x);
    var x4 := UnitProduct(x3, x);
    var x5 := UnitProduct(x4, x);
    assert Pow5(x) == x5;
  }

  lemma UnitProduct(a: real, b: real) returns (c: real)
    requires 0.0 <= a <= 1.0 && 0.0 <= b <= 1.0
    ensures c == a * b && 0.0 <= c <= 1.0
  {
    c := a * b;
    calc { c; == a * b; <= 1.0 * b; <= 1.0; }
    calc { c; == a * b; >= 0.0 * b; == 0.0; }
  }

  /** For a positive index, `r0` lies in `[0, 1)`. */
  lemma {:induction false} NormalReflectanceRange(refIdx: real)
    requires refIdx > 0.0
    ensures 0.0 <= NormalReflectance(refIdx) < 1.0
  {
    var d := 1.0 + refIdx;
    var q := (1.0 - refIdx) / d;
    assert q * d == 1.0 - refIdx;
    assert -1.0 < q < 1.0 by {
      if q >= 1.0 {
        calc { 1.0 - refIdx; == q * d; >= 1.0 * d; }
      }
      if q <= -1.0 {
        calc { 1.0 - refIdx; == q * d; <= -1.0 * d; }
      }
    }
    var s := Square(q);
    if q >= 0.0 {
      calc { s; == q * q; <= q * 1.0; < 1.0; }
    } else {
      calc { s; == (-q) * (-q); <= (-q) * 1.0; < 1.0; }
    }
  }

  /** Schlick's reflectance lies in `[r0, 1]` for a cosine in `[0, 1]`, is
      1 at grazing incidence and `r0` at normal incidence. */
  lemma {:induction false} ReflectanceRange(cosine: real, refIdx: real)
    requires refIdx > 0.0
    requires 0.0 <= cosine <= 1.0
    ensures NormalReflectance(refIdx) <= Reflectance(cosine, refIdx) <= 1.0
    ensures cosine == 0.0 ==> Reflectance(cosine, refIdx) == 1.0
    ensures cosine == 1.0 ==> Reflectance(cosine, refIdx) == NormalReflectance(refIdx)
  {
    var r0 := NormalReflectance(refIdx);
    NormalReflectanceRange(refIdx);
    var x := Pow5(1.0 - cosine);
    UnitPowers(1.0 - cosine);
    var w := 1.0 - r0;
    assert Reflectance(cosine, refIdx) == r0 + w * x;
    calc { w * x; <= w * 1.0; }
    calc { w * x; >= w * 0.0; }
    if cosine == 0.0 {
      assert x == 1.0;
    }
    if cosine == 1.0 {
      assert x == 0.0;
    }
  }

  /** `Lambertian::scatter`: the direction is the normal plus a unit
      vector, or the normal itself when that sum is almost zero. */
  function ScatterLambertian(albedo: Texture, lib: Lib, rayIn: Ray, rec: Record, sample: ScatterSample): (s: Scattered)
    ensures s.ok
    ensures s.ray.origin == rec.p && s.ray.time == rayIn.time
    ensures s.attenuation == Value(albedo, rec.u, rec.v, rec.p)
    ensures var d := Add(rec.normal, lib.unitVector(sample.inUnitSphere));
            s.ray.direction == if NearZero(d) then rec.normal else d
  {
    var direction := Add(rec.normal, lib.unitVector(sample.inUnitSphere));
    var direction' := if NearZero(direction) then rec.normal else direction;
    Scattered(true, Value(albedo, rec.u, rec.v, rec.p), Ray(rec.p, direction', rayIn.time))
  }

  /** `Metal::scatter`: the mirror direction perturbed by `fuzz` times the
      ball sample; it scatters only away from the surface. */
  function ScatterMetal(color: Color, fuzz: real, rayIn: Ray, rec: Record, sample: ScatterSample): (s: Scattered)
    ensures s.attenuation == color
    ensures s.ray.origin == rec.p && s.ray.time == rayIn.time
    ensures s.ray.direction == Add(Reflect(rayIn.direction, rec.normal), Scale(sample.inUnitSphere, fuzz))
    ensures s.ok <==> Dot(s.ray.direction, rec.normal) > 0.0
  {
    var reflected := Reflect(rayIn.direction, rec.normal);
    var scattered := Ray(rec.p, Add(reflected, Scale(sample.inUnitSphere, fuzz)), rayIn.time);
    Scattered(Dot(scattered.direction, rec.normal) > 0.0, color, scattered)
  }

  /** The ratio of refraction indices `eta / eta'` seen by the ray. */
  function RefractionRatio(refractionIndex: real, frontFace: bool): (ratio: real)
    requires refractionIndex > 0.0
    ensures ratio > 0.0
    ensures frontFace ==> ratio * refractionIndex == 1.0
    ensures !frontFace ==> ratio == refractionIndex
  {
    if frontFace then 1.0 / refractionIndex else refractionIndex
  }

  /** `cannot_refract`: Snell's law has no solution. */
  predicate CannotRefract(ratio: real, sinTheta: real)
  {
    ratio * sinTheta > 1.0
  }

  /** Whether the dielectric reflects: total internal reflection, or a
      reflectance above the random draw. */
  function DielectricReflects(ratio: real, cosTheta: real, sinTheta: real, draw: RandDraw): (b: bool)
    requires ratio > 0.0
    ensures CannotRefract(ratio, sinTheta) ==> b
    ensures cosTheta == 0.0 ==> b
  {
    CannotRefract(ratio, sinTheta) || Reflectance(cosTheta, ratio) > RandomDouble(draw)
  }

  /** `sqrt(1 - cos_theta * cos_theta)`: with an exact square root it
      completes the Pythagorean identity. */
  function SineFromCosine(lib: Lib, cosTheta: real): (sinTheta: real)
    ensures ExactSqrtAt(lib, 1.0 - cosTheta * cosTheta) ==>
              sinTheta >= 0.0 && cosTheta * cosTheta + sinTheta * sinTheta == 1.0
  {
    lib.sqrt(1.0 - cosTheta * cosTheta)
  }

  /** `cos_theta` and `sin_theta` of the unit direction against the normal. */
  function IncidenceAngle(lib: Lib, unitDirection: Vec3, normal: Vec3): (a: (real, real))
    ensures a.0 <= 1.0
    ensures a.0 == 1.0 || a.0 == Dot(Neg(unitDirection), normal)
    ensures Dot(Neg(unitDirection), normal) <= 1.0 ==> a.0 == Dot(Neg(unitDirection), normal)
    ensures a.1 == SineFromCosine(lib, a.0)
  {
    var cosTheta := StdMin(Dot(Neg(unitDirection), normal), 1.0);
    (cosTheta, SineFromCosine(lib, cosTheta))
  }

  /** The dielectric always reflects at grazing incidence. At normal
      incidence, where it can refract, it reflects exactly when the draw
      falls below `r0`. For a cosine in `[0, 1]` a draw below `r0` always
      reflects. */
  lemma {:induction false} DielectricReflectsBounds(ratio: real, cosTheta: real, sinTheta: real, draw: RandDraw)
    requires ratio > 0.0
    ensures DielectricReflects(ratio, 0.0, sinTheta, draw)
    ensures !CannotRefract(ratio, sinTheta) ==>
              (DielectricReflects(ratio, 1.0, sinTheta, draw) <==> NormalReflectance(ratio) > RandomDouble(draw))
    ensures 0.0 <= cosTheta <= 1.0 && RandomDouble(draw) < NormalReflectance(ratio) ==>
              DielectricReflects(ratio, cosTheta, sinTheta, draw)
  {
    if 0.0 <= cosTheta <= 1.0 {
      ReflectanceRange(cosTheta, ratio);
    }
  }

  /** `Dielectric::scatter`: always scatters, with white attenuation, into
      the reflected or the refracted direction of the unit direction; it
      reflects whenever it cannot refract. */
  function ScatterDielectric(refractionIndex: real, lib: Lib, rayIn: Ray, rec: Record, sample: ScatterSample): (s: Scattered)
    requires refractionIndex > 0.0
    ensures s.ok && s.attenuation == White
    ensures s.ray.origin == rec.p && s.ray.time == rayIn.time
    ensures var unitDirection := lib.unitVector(rayIn.direction);
            var ratio := RefractionRatio(refractionIndex, rec.frontFace);
            var (cosTheta, sinTheta) := IncidenceAngle(lib, unitDirection, rec.normal);
            s.ray.direction ==
              if CannotRefract(ratio, sinTheta) || Reflectance(cosTheta, ratio) > RandomDouble(sample.draw)
              then Reflect(unitDirection, rec.normal)
              else Refract(unitDirection, rec.normal, ratio, lib.sqrt)
  {
    var ratio := RefractionRatio(refractionIndex, rec.frontFace);
    var unitDirection := lib.unitVector(rayIn.direction);
    var (cosTheta, sinTheta) := IncidenceAngle(lib, unitDirection, rec.normal);
    var reflects := DielectricReflects(ratio, cosTheta, sinTheta, sample.draw);
    var direction :=
      if reflects
      then Reflect(unitDirection, rec.normal)
      else Refract(unitDirection, rec.normal, ratio, lib.sqrt);
    Scattered(true, White, Ray(rec.p, direction, rayIn.time))
  }

  /** `scatter(ray_in, rec, attenuation, scatter_ray)` dispatched on the
      material; `attenuation` and `scattered` are the out-parameters' values
      before the call. */
  function Scatter(m: Material, lib: Lib, rayIn: Ray, rec: Record, sample: ScatterSample,
                   attenuation: Color, scattered: Ray): (s: Scattered)
    requires WellFormed(m)
    ensures m.DiffuseLight? ==> !s.ok && s.attenuation == attenuation && s.ray == scattered
    ensures (m.Lambertian? || m.Dielectric?) ==> s.ok
    ensures s.ok ==> s.ray.origin == rec.p && s.ray.time == rayIn.time
  {
    match m
    case Lambertian(albedo) => ScatterLambertian(albedo, lib, rayIn, rec, sample)
    case Metal(color, fuzz) => ScatterMetal(color, fuzz, rayIn, rec, sample)
    case Dielectric(refractionIndex) => ScatterDielectric(refractionIndex, lib, rayIn, rec, sample)
    case DiffuseLight(_) => Scattered(false, attenuation, scattered)
  }

  /** A colour whose components lie in `[0, 1]`. */
  predicate UnitColor(c: Color)
  {
    0.0 <= c.x <= 1.0 && 0.0 <= c.y <= 1.0 && 0.0 <= c.z <= 1.0
  }

  /** A material whose albedo never amplifies light. */
  predicate Dim(m: Material)
  {
    match m
    case Lambertian(SolidColor(c)) => UnitColor(c)
    case Metal(c, _) => UnitColor(c)
    case Dielectric(_) => true
    case DiffuseLight(_) => true
  }

  /** A scattering dim material attenuates by a factor in `[0, 1]` on every
      channel. */
  lemma ScatterAttenuationDim(m: Material, lib: Lib, rayIn: Ray, rec: Record, sample: ScatterSample,
                              attenuation: Color, scattered: Ray)
    requires WellFormed(m) && Dim(m)
    ensures var s := Scatter(m, lib, rayIn, rec, sample, attenuation, scattered);
            s.ok ==> UnitColor(s.attenuation)
  {
  }
}
