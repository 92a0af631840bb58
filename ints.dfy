/** Fixed-width machine integers of the two source languages: Java's 32-bit
    two's-complement `int` and Rust's 64-bit unsigned `u64`, both of which
    wrap around on overflow (Java always, Rust in a release build). */
module Ints {

  const TWO_32: int := 0x1_0000_0000
  const TWO_64: int := 0x1_0000_0000_0000_0000

  predicate IsJavaInt(x: int)
  {
    -0x8000_0000 <= x < 0x8000_0000
  }

  /** The Java `int` that the mathematical value `x` wraps to. */
  function Wrap32(x: int): (r: int)
    ensures IsJavaInt(r)
    ensures (x - r) % TWO_32 == 0
    ensures IsJavaInt(x) ==> r == x
  {
    var m := x % TWO_32;
    if m >= 0x8000_0000 then m - TWO_32 else m
  }

  /** The `u64` that the mathematical value `x` wraps to. */
  function WrapU64(x: int): (r: nat)
    ensures r < TWO_64
    ensures (x - r) % TWO_64 == 0
    ensures 0 <= x < TWO_64 ==> r == x
  {
    x % TWO_64
  }
}
