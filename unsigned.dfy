/** The C++ `unsigned int` of the platform gloom targets: 32 bits wide. */
module Unsigned {

  /** One past the largest `unsigned int`. */
  const UIntLimit: int := 0x1_0000_0000

  /** The values of an `unsigned int`. */
  newtype UInt = x: int | 0 <= x < UIntLimit
}
