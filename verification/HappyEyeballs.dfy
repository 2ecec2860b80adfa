/** The delay before the idx-th dialing attempt (pkg/enginenetx/happyeyeballs.go). */
module HappyEyeballs {

  /** Go's `time.Second`, in nanoseconds. */
  const SECOND: int := 1_000_000_000

  const MAX_INT64: int := 0x7fff_ffff_ffff_ffff

  /** The last index whose delay fits an int64. */
  const LAST_EXACT_INDEX: int := 1_152_921_507

  /** Two's complement wrap-around of a mathematical integer to an int64. */
  function WrapInt64(x: int): int {
    (x + 0x8000_0000_0000_0000) % 0x1_0000_0000_0000_0000 - 0x8000_0000_0000_0000
  }

  function HappyEyeballsDelay(idx: int): int {
    if idx <= 0 then 0
    else if idx == 1 then SECOND
    else if idx == 2 then SECOND * 2
    else if idx == 3 then SECOND * 4
    else if idx == 4 then SECOND * 8
    else WrapInt64(SECOND * 8 * (idx - 3))
  }

  /** What the documentation promises: nothing, then one second, doubling up to
      eight seconds, then eight more seconds at each attempt. */
  function DocumentedDelay(idx: int): int
    decreases idx
  {
    if idx <= 0 then 0
    else if idx == 1 then SECOND
    else
      var previous := DocumentedDelay(idx - 1);
      if previous < 8 * SECOND then 2 * previous else previous + 8 * SECOND
  }

  lemma {:induction false} DocumentedDelayIsLinear(idx: int)
    requires 4 <= idx
    ensures DocumentedDelay(idx) == 8 * SECOND * (idx - 3)
    decreases idx
  {
    if idx == 4 {
      assert DocumentedDelay(2) == 2 * SECOND;
      assert DocumentedDelay(3) == 4 * SECOND;
    } else {
      DocumentedDelayIsLinear(idx - 1);
    }
  }

  /** The code computes the documented delay exactly up to the index where int64 overflows,
      and never again after it. */
  lemma {:induction false} DelayIsDocumentedExactlyUntilOverflow(idx: int)
    requires idx <= MAX_INT64
    ensures HappyEyeballsDelay(idx) == DocumentedDelay(idx) <==> idx <= LAST_EXACT_INDEX
  {
    if 4 <= idx {
      DocumentedDelayIsLinear(idx);
    } else {
      assert DocumentedDelay(2) == 2 * SECOND;
    }
  }

  /** Later attempts always start strictly later, and from index 4 on exactly eight seconds apart. */
  lemma {:induction false} DelaysStrictlyIncrease(i: int, j: int)
    requires 0 <= i < j <= LAST_EXACT_INDEX
    ensures HappyEyeballsDelay(i) < HappyEyeballsDelay(j)
    ensures 4 <= i ==> HappyEyeballsDelay(j) - HappyEyeballsDelay(i) == 8 * SECOND * (j - i)
  {
    if 5 <= i {
      assert HappyEyeballsDelay(i) == 8 * SECOND * (i - 3);
    }
    if 5 <= j {
      assert HappyEyeballsDelay(j) == 8 * SECOND * (j - 3);
    }
  }

  /** The first index past the bound wraps around to a negative delay. */
  lemma DelayAfterTheLastExactIndexIsNegative()
    ensures HappyEyeballsDelay(LAST_EXACT_INDEX + 1) < 0
  {
  }
}
