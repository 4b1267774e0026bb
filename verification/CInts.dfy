/** The integer types of the C programs, over mathematical integers. */
module CInts {

  const UINT_RANGE := 0x1_0000_0000
  const SIZE_RANGE := 0x1_0000_0000_0000_0000

  /** Conversion to a 32-bit `unsigned int`. */
  function U32(x: int): nat {
    if 0 <= x < UINT_RANGE then x else x % UINT_RANGE
  }

  /** Conversion to a 64-bit `size_t`. */
  function SizeT(x: int): nat {
    if 0 <= x < SIZE_RANGE then x else x % SIZE_RANGE
  }

  /** C's `%`: the quotient is truncated toward zero, so the sign is that of `a`. */
  function TruncRem(a: int, b: int): int
    requires b > 0
  {
    if a >= 0 then a % b else -((-a) % b)
  }

  /** The wrapped value is the only one in range that differs by a multiple of it. */
  lemma U32Wraps(x: int) returns (w: int)
    ensures U32(x) == x + UINT_RANGE * w && 0 <= U32(x) < UINT_RANGE
  {
    w := -(x / UINT_RANGE);
  }

  lemma SizeTWraps(x: int) returns (w: int)
    ensures SizeT(x) == x + SIZE_RANGE * w && 0 <= SizeT(x) < SIZE_RANGE
  {
    w := -(x / SIZE_RANGE);
  }

  /** The remainder differs from the dividend by a multiple of the divisor, is smaller
      than it, and never has the other sign. */
  lemma TruncRemIs(a: int, b: int) returns (q: int)
    requires b > 0
    ensures a == b * q + TruncRem(a, b)
    ensures a >= 0 ==> 0 <= TruncRem(a, b) < b
    ensures a <= 0 ==> -b < TruncRem(a, b) <= 0
  {
    q := if a >= 0 then a / b else -((-a) / b);
  }
}
