/** Java's 64-bit `long`. */
module JavaLongs {
  /** 2^64, the modulus of Java `long` arithmetic. */
  const LONG_RANGE: int := 0x1_0000_0000_0000_0000

  newtype long = x: int | -0x8000_0000_0000_0000 <= x < 0x8000_0000_0000_0000
}
