/** Rust's fixed-width integer types, as ranges of Dafny's unbounded integers. */
module Ints {
  type u8 = x: int | 0 <= x < 0x100
  type i16 = x: int | -0x8000 <= x < 0x8000
  type i32 = x: int | -0x8000_0000 <= x < 0x8000_0000
  type u64 = x: int | 0 <= x < 0x1_0000_0000_0000_0000

  const I32_MIN: int := -0x8000_0000
  const I32_MAX: int := 0x7fff_ffff
}
