/** The fixed integer widths of the source, on Dafny's unbounded integers. */
module Widths {
  const TWO_TO_THE_32: int := 0x1_0000_0000
  const TWO_TO_THE_63: int := 0x8000_0000_0000_0000
  const TWO_TO_THE_64: int := 0x1_0000_0000_0000_0000

  /** What a uint32 counter shows after `n` increments from zero. */
  function Wrap32(n: nat): nat {
    n % TWO_TO_THE_32
  }

  /** The int64 that two's-complement arithmetic yields for the exact value `n`. */
  function WrapInt64(n: int): int {
    (n + TWO_TO_THE_63) % TWO_TO_THE_64 - TWO_TO_THE_63
  }

  /** The uint64 a conversion from the exact value `n` yields. */
  function WrapUint64(n: int): nat {
    n % TWO_TO_THE_64
  }

  /** Incrementing a wrapped counter is wrapping the incremented count. */
  lemma Wrap32Step(n: nat)
    ensures Wrap32(Wrap32(n) + 1) == Wrap32(n + 1)
  {
  }
}
