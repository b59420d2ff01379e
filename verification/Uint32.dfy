/** Unsigned 32-bit integers, as the firmware's `uint32_t` instants and differences. */
module Uint32 {

  const MODULUS: int := 0x1_0000_0000

  /** A value of C's `uint32_t`. */
  type U32 = x: int | 0 <= x < 0x1_0000_0000

  const MAX: U32 := 0xFFFF_FFFF

  /** `a - b` on `uint32_t`: the difference taken modulo 2^32. */
  function Sub32(a: U32, b: U32): (r: U32)
    ensures a >= b ==> r == a - b
    ensures a < b ==> r == a - b + MODULUS
    ensures (b + r) % MODULUS == a
  {
    (a - b) % MODULUS
  }

  /** `a + b` on `uint32_t`: the sum taken modulo 2^32. */
  function Add32(a: U32, b: U32): (r: U32)
    ensures a + b < MODULUS ==> r == a + b
    ensures a + b >= MODULUS ==> r == a + b - MODULUS
  {
    (a + b) % MODULUS
  }

  /** Wrap-around subtraction undoes wrap-around addition, and conversely. */
  lemma SubAddInverse(a: U32, b: U32)
    ensures Sub32(Add32(a, b), b) == a
    ensures Add32(Sub32(a, b), b) == a
  {
  }
}
