/** The waits between commit attempts: doubled each time, capped, and never overflowing. */
module Backoff {
  import opened Base

  /** Two minutes, in nanoseconds. */
  const MAX_BACKOFF: int := 120_000_000_000

  function Min(a: int, b: int): int {
    if a <= b then a else b
  }

  function Pow2(k: nat): (p: nat)
    ensures p >= 1
  {
    if k == 0 then 1 else 2 * Pow2(k - 1)
  }

  /** The loop's backoff variable before wait k, doubled in 64-bit arithmetic. */
  function Delay(base: int, k: nat): int {
    if k == 0 then base else Wrap64(2 * Min(Delay(base, k - 1), MAX_BACKOFF))
  }

  function Wait(base: int, k: nat): int {
    Min(Delay(base, k), MAX_BACKOFF)
  }

  /** Doubling a capped value and capping it again is capping the double; nothing overflows. */
  lemma CappedDouble(x: int)
    requires 0 <= x
    ensures Min(Wrap64(2 * Min(x, MAX_BACKOFF)), MAX_BACKOFF) == Min(2 * x, MAX_BACKOFF) && Int64(2 * Min(x, MAX_BACKOFF))
  {
  }

  /** The base doubled k times. */
  function Doubled(base: int, k: nat): int {
    if k == 0 then base else 2 * Doubled(base, k - 1)
  }

  lemma {:induction false} DoubledIsProduct(base: int, k: nat)
    ensures Doubled(base, k) == base * Pow2(k)
  {
    if k > 0 {
      DoubledIsProduct(base, k - 1);
    }
  }

  lemma {:induction false} WaitIsCapped(base: int, k: nat)
    requires 0 <= base && Int64(base)
    ensures 0 <= Doubled(base, k) && Wait(base, k) == Min(Doubled(base, k), MAX_BACKOFF)
  {
    if k > 0 {
      WaitIsCapped(base, k - 1);
      CappedDouble(Doubled(base, k - 1));
    }
  }

  /** For a non-negative base the k-th wait is the base doubled k times, capped at two minutes, and no doubling overflows. */
  lemma WaitIsCappedDoubling(base: int, k: nat)
    requires 0 <= base && Int64(base)
    ensures Wait(base, k) == Min(base * Pow2(k), 2 * 60 * 1_000_000_000)
    ensures Int64(2 * Wait(base, k))
  {
    WaitIsCapped(base, k);
    DoubledIsProduct(base, k);
    CappedDouble(Doubled(base, k));
  }
}
