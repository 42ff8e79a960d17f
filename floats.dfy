/** The small vector types of gloom/src/floats.hpp. The vector components
    are only carried around by the modelled code, so they are exact reals
    here. */
module Floats {

  datatype Float2 = Float2(x: real, y: real)

  datatype Float3 = Float3(x: real, y: real, z: real)

  datatype Float4 = Float4(x: real, y: real, z: real, w: real)

  /** The plain integer pair `int2`. */
  datatype Int2 = Int2(x: int, y: int)

  /** `float3(0)` and `float4(0)`: the one-argument constructors copy the value
      into every component. */
  const Zero3: Float3 := Float3(0.0, 0.0, 0.0)
  const Zero4: Float4 := Float4(0.0, 0.0, 0.0, 0.0)
}
