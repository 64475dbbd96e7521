/** Scalar helpers of the renderer: clamping, angle conversion, the
    pseudo-random draws built on `rand()`, and the C++ library minimum and
    maximum. `double` is idealised as `real`; `rand()` is a parameter. */
module Util {

  /** The value `pi` of the program (a rational approximation of pi). */
  const Pi: real := 3.14159265358979323846

  /** `RAND_MAX` of the C runtime the program is built with. */
  const RandMax: int := 32767

  /** One value returned by `rand()`. */
  type RandDraw = x: int | 0 <= x <= RandMax

  datatype Option<+T> = None | Some(value: T)

  /** An upper bound of a ray-parameter interval; `Infinity` stands for the
      IEEE constant `infinity`. */
  datatype Bound = Finite(value: real) | Infinity

  /** `t > bound` */
  predicate Exceeds(t: real, b: Bound)
  {
    b.Finite? && t > b.value
  }

  /** `bound <= t` */
  predicate AtMost(b: Bound, t: real)
  {
    b.Finite? && b.value <= t
  }

  /** `tMin <= t <= tMax`: both ends accepted. */
  predicate InRange(t: real, tMin: real, tMax: Bound)
  {
    tMin <= t && !Exceeds(t, tMax)
  }

  /** `std::min(a, b)`, which is `(b < a) ? b : a`. */
  function StdMin(a: real, b: real): (r: real)
    ensures r <= a && r <= b && (r == a || r == b)
  {
    if b < a then b else a
  }

  /** `std::max(a, b)`, which is `(a < b) ? b : a`. */
  function StdMax(a: real, b: real): (r: real)
    ensures r >= a && r >= b && (r == a || r == b)
  {
    if a < b then b else a
  }

  /** `std::max(b, t)` for an upper bound that may be `infinity`. */
  function MaxBound(b: Bound, t: real): (r: Bound)
    ensures !Exceeds(t, r)
    ensures forall s :: !Exceeds(s, b) ==> !Exceeds(s, r)
    ensures r == b || r == Finite(t)
  {
    match b
    case Infinity => Infinity
    case Finite(v) => Finite(StdMax(v, t))
  }

  /** util.h `clamp`. */
  function Clamp(x: real, minPoint: real, maxPoint: real): (r: real)
    ensures x < minPoint ==> r == minPoint
    ensures minPoint <= x && x > maxPoint ==> r == maxPoint
    ensures minPoint <= x <= maxPoint ==> r == x
    ensures minPoint <= maxPoint ==> minPoint <= r <= maxPoint
  {
    if x < minPoint then minPoint
    else if x > maxPoint then maxPoint
    else x
  }

  /** `degreeToRadians`: 180 degrees is `pi`, and the sign is kept. */
  function DegreeToRadians(degree: real): (r: real)
    ensures degree == 180.0 <==> r == Pi
    ensures degree == 0.0 <==> r == 0.0
    ensures degree > 0.0 <==> r > 0.0
  {
    degree * Pi / 180.0
  }

  /** `radiansToDegree`; it undoes `degreeToRadians`, and the other way round. */
  function RadiansToDegree(radian: real): (d: real)
    ensures DegreeToRadians(d) == radian
    ensures forall e :: DegreeToRadians(e) == radian ==> e == d
  {
    180.0 * radian / Pi
  }

  lemma DegreesRoundTrip(d: real)
    ensures RadiansToDegree(DegreeToRadians(d)) == d
  {
    assert DegreeToRadians(RadiansToDegree(DegreeToRadians(d))) == DegreeToRadians(d);
  }

  /** `random_double()`: `rand() / (RAND_MAX + 1.0)`, a real in [0, 1). */
  function RandomDouble(rand: RandDraw): (r: real)
    ensures 0.0 <= r < 1.0
  {
    rand as real / (RandMax as real + 1.0)
  }

  /** `random_double(min, max)`: `min + (max - min) * random_double()`. */
  function RandomDoubleIn(minPoint: real, maxPoint: real, rand: RandDraw): (r: real)
    ensures minPoint < maxPoint ==> minPoint <= r < maxPoint
    ensures minPoint == maxPoint ==> r == minPoint
  {
    var d := RandomDouble(rand);
    var w := maxPoint - minPoint;
    ScaledUnitBelow(w, d);
    minPoint + w * d
  }

  lemma ScaledUnitBelow(w: real, d: real)
    requires 0.0 <= d < 1.0
    ensures w > 0.0 ==> 0.0 <= w * d < w
  {
    if w > 0.0 {
      assert w * d < w * 1.0;
    }
  }

  /** The C and C++ `/` operator on `int`, which truncates toward zero. */
  function CQuot(a: int, b: int): int
    requires b != 0
  {
    if a >= 0 then a / b else -((-a) / b)
  }

  /** The C and C++ `%` operator: truncating division's remainder, whose
      sign follows the dividend. */
  function CRem(a: int, b: int): (r: int)
    requires b != 0
    ensures a >= 0 ==> 0 <= r < if b > 0 then b else -b
    ensures a < 0 ==> 0 >= r > if b > 0 then -b else b
    ensures a == CQuot(a, b) * b + r
  {
    if a >= 0 then a % b else -((-a) % b)
  }

  /** `random_int(min, max)`: `rand() % (max + 1 - min) + min`. A zero
      divisor (`max + 1 == min`) is undefined behaviour in C++, hence the
      precondition. */
  function RandomInt(minValue: int, maxValue: int, rand: RandDraw): (r: int)
    requires maxValue + 1 - minValue != 0
    ensures minValue <= maxValue ==> minValue <= r <= maxValue
  {
    CRem(rand, maxValue + 1 - minValue) + minValue
  }
}
