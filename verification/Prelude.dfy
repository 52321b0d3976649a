/**
 Shared vocabulary: optional values, results, and the fixed-width integers of the source.

 Dafny's integers are unbounded, so the source's `checked_add`, `wrapping_add` and
 `wrapping_sub` are written out.
 */
module Prelude {

  datatype Option<+T> = None | Some(value: T)

  datatype Result<+T, +E> = Ok(value: T) | Err(error: E)

  function OrEmpty<T>(s: Option<seq<T>>): seq<T> {
    if s.Some? then s.value else []
  }

  type byte = x: int | 0 <= x < 256
  type Bytes = seq<byte>

  const I32_MAX: int := 0x7fff_ffff
  const I32_MIN: int := -0x8000_0000
  const TWO_32: int := 0x1_0000_0000
  const TWO_63: int := 0x8000_0000_0000_0000
  const TWO_64: int := 0x1_0000_0000_0000_0000

  type i16 = x: int | -0x8000 <= x < 0x8000
  type i32 = x: int | I32_MIN <= x <= I32_MAX
  type u32 = x: int | 0 <= x < TWO_32
  type i64 = x: int | -TWO_63 <= x < TWO_63

  /** The error code of a success. */
  const NO_ERROR: i16 := 0

  /** `i32::checked_add`. */
  function CheckedAdd32(a: i32, b: i32): Option<i32> {
    if I32_MIN <= a + b <= I32_MAX then Some(a + b) else None
  }

  /** `i32::try_from` on an unsigned value, with the error discarded. */
  function ToI32(n: nat): Option<i32> {
    if n <= I32_MAX then Some(n) else None
  }

  /** The 64-bit two's complement value of `x`. */
  function Wrap64(x: int): i64 {
    var m := x % TWO_64;
    if m < TWO_63 then m else m - TWO_64
  }

  /** The 32-bit two's complement value of `x`. */
  function Wrap32(x: int): i32 {
    var m := x % TWO_32;
    if m <= I32_MAX then m else m - TWO_32
  }

  /** The 32-bit value of an integer differs from it by a multiple of 2^32, and not at all if it fits. */
  lemma Wrap32Is(x: int)
    ensures (Wrap32(x) - x) % TWO_32 == 0
    ensures I32_MIN <= x <= I32_MAX ==> Wrap32(x) == x
  {
    var m := x % TWO_32;
    assert x == TWO_32 * (x / TWO_32) + m;
    assert m - x == TWO_32 * -(x / TWO_32);
    assert (m - TWO_32) - x == TWO_32 * (-(x / TWO_32) - 1);
    MultipleOf(m - x, -(x / TWO_32));
    MultipleOf((m - TWO_32) - x, -(x / TWO_32) - 1);
  }

  lemma MultipleOf(y: int, k: int)
    requires y == TWO_32 * k
    ensures y % TWO_32 == 0
  {
  }

  /** Wrapping moves an integer by a multiple of 2^64. */
  lemma WrapMoves(x: int) returns (k: int)
    ensures Wrap64(x) == x + k * TWO_64
  {
    k := -(x / TWO_64) - if x % TWO_64 < TWO_63 then 0 else 1;
  }

  /** Two integers that differ by a multiple of 2^64 have the same 64-bit value. */
  lemma WrapCongruent(x: int, y: int, k: int)
    requires x == y + k * TWO_64
    ensures Wrap64(x) == Wrap64(y)
  {
    assert x % TWO_64 == y % TWO_64;
  }
}
