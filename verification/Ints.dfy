/** Machine integers the layout is stored in. */
module Ints {
  const I32_MIN: int := -0x8000_0000
  const I32_MAX: int := 0x7fff_ffff
  const U32_MAX: int := 0xffff_ffff

  type i32 = x: int | I32_MIN <= x <= I32_MAX
  type u32 = x: int | 0 <= x <= U32_MAX

  predicate FitsI64(x: int) {
    -0x8000_0000_0000_0000 <= x <= 0x7fff_ffff_ffff_ffff
  }

  function Clamp(v: int, lo: int, hi: int): int
    requires lo <= hi
  {
    if v < lo then lo else if v > hi then hi else v
  }

  /** Saturate a widened coordinate back into 32 bits. */
  function ClampToI32(v: int): (r: i32)
    ensures r == v <==> I32_MIN <= v <= I32_MAX
  {
    Clamp(v, I32_MIN, I32_MAX)
  }

  /** Subtraction and addition of 32-bit integers wrap around in a release build. */
  function WrapToI32(v: int): (r: i32)
    ensures r == v <==> I32_MIN <= v <= I32_MAX
  {
    (v - I32_MIN) % 0x1_0000_0000 + I32_MIN
  }

  function Min(a: int, b: int): int { if a <= b then a else b }
  function Max(a: int, b: int): int { if a <= b then b else a }
}
