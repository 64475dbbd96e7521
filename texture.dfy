/** Textures. Only the solid colour is defined; its `value` ignores the
    surface coordinates and the point. */
module Textures {
  import opened Vectors

  datatype Texture = SolidColor(colorValue: Color)

  /** `solid_color()`: black. */
  const DefaultSolidColor: Texture := SolidColor(Zero)

  /** `solid_color(r, g, b)` */
  function SolidRgb(red: real, green: real, blue: real): (tex: Texture)
    ensures forall u, v, p :: Value(tex, u, v, p) == Vec3(red, green, blue)
  {
    SolidColor(Vec3(red, green, blue))
  }

  /** `value(u, v, p)` */
  function Value(tex: Texture, u: real, v: real, p: Point3): Color
  {
    match tex
    case SolidColor(c) => c
  }

  /** `value` depends on neither the surface coordinates nor the point. */
  lemma ValueIgnoresCoordinates(tex: Texture, u: real, v: real, p: Point3, u': real, v': real, p': Point3)
    ensures Value(tex, u, v, p) == Value(tex, u', v', p')
  {
  }

  /** The default solid colour is black wherever it is sampled. */
  lemma DefaultIsBlack(u: real, v: real, p: Point3)
    ensures Value(DefaultSolidColor, u, v, p) == Zero
  {
  }
}
