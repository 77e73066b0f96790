/** Fixed-width machine integers and float bit patterns. */
module Scalars {
  /** A Rust `i32`. */
  type I32 = x: int | -0x8000_0000 <= x < 0x8000_0000

  /** A Rust `u32`. */
  type U32 = x: int | 0 <= x < 0x1_0000_0000

  /** A 32-bit float is kept as its bit pattern; its arithmetic and decimal rendering are outside the model. */
  datatype Float32Bits = Float32Bits(bits: U32)

  /** An `i32` reinterpreted as `u32` (`as u32`): negative values wrap to the upper half. */
  function AsU32(v: I32): (n: U32)
    ensures v >= 0 ==> n == v
    ensures v < 0 ==> n == v + 0x1_0000_0000
  {
    if v < 0 then v + 0x1_0000_0000 else v
  }

  /** A `u32` bit pattern reinterpreted as `i32` (`transmute`, `as i32`): the upper half is negative. */
  function AsI32(n: U32): (v: I32)
    ensures n < 0x8000_0000 ==> v == n
    ensures n >= 0x8000_0000 ==> v == n - 0x1_0000_0000
  {
    if n < 0x8000_0000 then n else n - 0x1_0000_0000
  }

  /** The two reinterpretations are inverse: no bit pattern is lost either way. */
  lemma ReinterpretRoundTrip(v: I32, n: U32)
    ensures AsI32(AsU32(v)) == v
    ensures AsU32(AsI32(n)) == n
  {
  }

  /** A 32-bit two's-complement result: the value taken modulo 2^32 into the `i32` range. */
  function WrapI32(x: int): (v: I32)
    ensures (v - x) % 0x1_0000_0000 == 0
    ensures -0x8000_0000 <= x < 0x8000_0000 ==> v == x
  {
    AsI32(x % 0x1_0000_0000)
  }
}
