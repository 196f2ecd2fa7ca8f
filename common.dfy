/** Shared value types: an optional value and the 32-bit integer widths of
    the C target (ARMv7-M, where `int`, `size_t` and pointers are 32 bits). */
module Common {

  datatype Option<+T> = None | Some(value: T)

  const TwoTo32: int := 0x1_0000_0000
  const MinInt32: int := -0x8000_0000
  const MaxInt32: int := 0x7fff_ffff

  type uint32 = x: int | 0 <= x < TwoTo32
  type int32 = x: int | MinInt32 <= x <= MaxInt32

  /** Two's complement truncation of a mathematical integer to 32 bits, as
      the target's `int32_t` arithmetic wraps. */
  function Wrap32(x: int): (r: int32)
    ensures (r - x) % TwoTo32 == 0
    ensures MinInt32 <= x <= MaxInt32 ==> r == x
  {
    var m := x % TwoTo32;
    if m <= MaxInt32 then m else m - TwoTo32
  }

  /** Unsigned 32-bit truncation, as `uint32_t` and `size_t` arithmetic wraps. */
  function WrapU32(x: int): (r: uint32)
    ensures (r - x) % TwoTo32 == 0
    ensures 0 <= x < TwoTo32 ==> r == x
  {
    x % TwoTo32
  }
}
