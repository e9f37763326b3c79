/** The machine integers the firmware computes with, and the few operations on them
    whose Rust meaning differs from Dafny's.

    The workspace is built with overflow checks on, so an addition that leaves its type
    panics.  The subset types below make the verifier prove that this cannot happen. */
module Ints {

  const U32_MAX := 0xFFFF_FFFF
  const U64_MAX := 0xFFFF_FFFF_FFFF_FFFF
  const I32_MAX := 0x7FFF_FFFF

  type u8 = x: int | 0 <= x < 0x100
  type u16 = x: int | 0 <= x < 0x1_0000
  type u32 = x: int | 0 <= x <= U32_MAX
  type u64 = x: int | 0 <= x <= U64_MAX
  type i8 = x: int | -0x80 <= x < 0x80
  type i32 = x: int | -0x8000_0000 <= x <= I32_MAX
  type i64 = x: int | -0x8000_0000_0000_0000 <= x < 0x8000_0000_0000_0000

  datatype Option<+T> = None | Some(value: T)

  function Abs(x: int): nat { if x < 0 then -x else x }

  function Sign(x: int): int { if x < 0 then -1 else if x == 0 then 0 else 1 }

  function Min(a: int, b: int): int { if a < b then a else b }

  function Max(a: int, b: int): int { if a < b then b else a }

  function Clamp(x: int, low: int, high: int): int
    requires low <= high
  {
    if x < low then low else if x > high then high else x
  }

  /** Rust's `/`: the quotient of the magnitudes, truncated, with the sign of the operands. */
  function TruncDiv(n: int, d: int): int
    requires d != 0
  {
    var magnitude := Abs(n) / Abs(d);
    if (n < 0) == (d < 0) then magnitude else -magnitude
  }

  /** `u64::wrapping_sub`. */
  function WrappingSub64(a: u64, b: u64): u64 { (a - b) % 0x1_0000_0000_0000_0000 }

  /** `u64::wrapping_add`. */
  function WrappingAdd64(a: u64, b: u64): u64 { (a + b) % 0x1_0000_0000_0000_0000 }

  function SatAdd32(a: u32, b: u32): u32 { Min(a + b, U32_MAX) }

  function SatAdd8(a: i8, b: i8): i8 { Clamp(a + b, -128, 127) }

  function Sum(s: seq<int>): int
  {
    if s == [] then 0 else Sum(s[..|s| - 1]) + s[|s| - 1]
  }
}
