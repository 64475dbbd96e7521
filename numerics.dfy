/** The library routines of `<cmath>` that have no exact counterpart on
    real numbers. They are parameters of the model: every operation that
    calls one of them receives a `Lib`, and properties that depend on the
    value of a square root state what they need of it. */
module Numerics {
  import opened Vectors

  /** `std::sqrt`, `tan`, `acos`, `atan2` and `unit_vector` (which divides
      by the square root of the squared length). */
  datatype Lib = Lib(
    sqrt: real -> real,
    tan: real -> real,
    acos: real -> real,
    atan2: (real, real) -> real,
    unitVector: Vec3 -> Vec3)

  /** `sqrt` returns the non-negative square root of `d`. */
  predicate ExactSqrtAt(lib: Lib, d: real)
  {
    lib.sqrt(d) >= 0.0 && lib.sqrt(d) * lib.sqrt(d) == d
  }

  /** `length()`: the square root of the squared length. */
  function Length(lib: Lib, v: Vec3): real
  {
    lib.sqrt(LengthSquared(v))
  }
}
