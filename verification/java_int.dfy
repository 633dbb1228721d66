/** Java's 32-bit `int`: the range and the two's-complement wrap-around of
    `int` arithmetic. */
module JavaInt {

  const MinInt: int := -0x8000_0000
  const MaxInt: int := 0x7fff_ffff

  predicate InRange(x: int) {
    MinInt <= x <= MaxInt
  }

  /** The `int` that an unbounded result wraps to. */
  function Wrap(x: int): (r: int)
    ensures InRange(r)
    ensures (r - x) % 0x1_0000_0000 == 0
    ensures InRange(x) ==> r == x
    ensures x <= MaxInt ==> x <= r
  {
    (x - MinInt) % 0x1_0000_0000 + MinInt
  }

  /** At `MaxInt` the increment wraps to `MinInt`. */
  lemma IncrementAtMax()
    ensures Wrap(MaxInt + 1) == MinInt
  {
  }
}
