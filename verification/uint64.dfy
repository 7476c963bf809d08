/** Go's fixed-width integers, written out over Dafny's unbounded ones. */
module Uint64 {

  const TWO63: int := 0x8000_0000_0000_0000
  const TWO64: int := 0x1_0000_0000_0000_0000

  /** A Go `uint64`. */
  type U64 = x: int | 0 <= x < TWO64

  /** The value a `uint64` computation yields: Go arithmetic on `uint64`
      wraps around modulo 2^64. */
  function Wrap(x: int): (r: U64)
    ensures 0 <= x < TWO64 ==> r == x
    ensures (x - r) % TWO64 == 0
  {
    x % TWO64
  }

  /** Go's conversion `int(x)` of a `uint64` on a 64-bit platform: the same
      bits read as two's complement, so values from 2^63 up become negative. */
  function AsGoInt(x: U64): (r: int)
    ensures -TWO63 <= r < TWO63
    ensures (r - x) % TWO64 == 0
    ensures r < 0 <==> x >= TWO63
  {
    if x < TWO63 then x else x - TWO64
  }
}
