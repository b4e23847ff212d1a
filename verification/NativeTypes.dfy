/** The fixed-width integers of the native interfaces. */
module NativeTypes {
  type Byte = b: nat | b < 0x100
  type Unit = u: nat | u < 0x1_0000 // one UTF-16 code unit
  type U32 = n: nat | n < 0x1_0000_0000
  type U64 = n: nat | n < 0x1_0000_0000_0000_0000
  type I32 = n: int | -0x8000_0000 <= n < 0x8000_0000
}
