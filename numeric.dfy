/** Machine-integer ranges and the Rust conversions the game code relies on. */
module Numeric {

  const U32Max: int := 0xFFFF_FFFF
  const I32Min: int := -0x8000_0000
  const I32Max: int := 0x7FFF_FFFF

  /** Rust's `u32`. */
  type U32 = x: int | 0 <= x <= U32Max

  /** Rust's `i8`, the type of the hand's card indices. */
  type I8 = x: int | -128 <= x <= 127

  /** Rust's `i32`. */
  predicate IsI32(n: int) {
    I32Min <= n <= I32Max
  }

  function Min(a: int, b: int): (m: int)
    ensures m <= a && m <= b && (m == a || m == b)
  {
    if a <= b then a else b
  }

  /** `n as i8`: keep the low eight bits and read them as two's complement. */
  function WrapI8(n: int): (r: I8)
    ensures -128 <= n <= 127 ==> r == n
    ensures (r - n) % 256 == 0
  {
    (n + 128) % 256 - 128
  }

  /** `n as i32` for a `u32` value: the bit pattern is reinterpreted. */
  function U32AsI32(n: U32): (r: int)
    ensures IsI32(r)
    ensures n <= I32Max ==> r == n
    ensures n > I32Max ==> r < 0 && r + 0x1_0000_0000 == n
  {
    if n <= I32Max then n else n - 0x1_0000_0000
  }

  /** Rust's `/` on signed integers by 2: the quotient is truncated toward zero. */
  function HalveTowardZero(a: int): (q: int)
    ensures a >= 0 ==> 0 <= a - 2 * q <= 1
    ensures a < 0 ==> -1 <= a - 2 * q <= 0
  {
    if a >= 0 then a / 2 else -((-a) / 2)
  }

  /** Truncation of a real toward zero. */
  function Trunc(r: real): (n: int)
    ensures r >= 0.0 ==> n as real <= r < n as real + 1.0
    ensures r < 0.0 ==> n as real - 1.0 < r <= n as real
  {
    if r >= 0.0 then r.Floor else -((-r).Floor)
  }

  /** A float-to-`i32` cast (`as i32`, used by glam's `as_ivec2`): truncate toward zero, then saturate. */
  function FloatToI32(r: real): (n: int)
    ensures IsI32(n)
    ensures IsI32(Trunc(r)) ==> n == Trunc(r)
    ensures Trunc(r) < I32Min ==> n == I32Min
    ensures Trunc(r) > I32Max ==> n == I32Max
  {
    var t := Trunc(r);
    if t < I32Min then I32Min else if t > I32Max then I32Max else t
  }

  /** The cast gives back every integer that is already in range. */
  lemma FloatToI32OfInt(n: int)
    requires IsI32(n)
    ensures FloatToI32(n as real) == n
  {
  }
}
