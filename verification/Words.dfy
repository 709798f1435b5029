/** Machine words. Arithmetic on a word type is checked for range at every operation, so a method that
    verifies with these types never overflows; wherever the C code relies on truncation or wrap-around,
    the model writes it out. */
module Words {
  newtype u8 = x: int | 0 <= x < 0x100
  newtype u16 = x: int | 0 <= x < 0x1_0000
  newtype u32 = x: int | 0 <= x < 0x1_0000_0000
  newtype u64 = x: int | 0 <= x < 0x1_0000_0000_0000_0000
  newtype u128 = x: int | 0 <= x < 0x1_0000_0000_0000_0000_0000_0000_0000_0000

  const TWO32: int := 0x1_0000_0000
  const TWO64: int := 0x1_0000_0000_0000_0000

  /** The C cast `(u64)x` of a 128-bit value. */
  function Trunc64(x: u128): u64 {
    (x % 0x1_0000_0000_0000_0000) as u64
  }
}
