/** The fixed-width integer types the dice code stores its fields in. */
module Ints {

  const U32_MAX: int := 0xFFFF_FFFF
  const I32_MIN: int := -0x8000_0000
  const I32_MAX: int := 0x7FFF_FFFF

  /** Rust `u32`. */
  type uint32 = x: int | 0 <= x <= U32_MAX

  /** Rust `i32`. */
  type int32 = x: int | I32_MIN <= x <= I32_MAX
}
