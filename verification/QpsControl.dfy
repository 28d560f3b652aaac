/** The search in `qpsctl` for a tick length and a batch size that realise a QPS limit. */
module QpsControl {

  const SECOND: int := 1_000_000_000
  const MILLISECOND: int := 1_000_000

  lemma SplitBounds(delay: int)
    requires MILLISECOND <= delay <= 501 * MILLISECOND
    ensures 1 <= SECOND / delay <= 1000
    ensures delay == 501 * MILLISECOND ==> SECOND / delay == 1
  {
    var q := SECOND / delay;
    assert q * delay <= SECOND < (q + 1) * delay;
  }

  /**
   * The search never divides by zero, stops with a delay of at most 501 ms, and finds the shortest
   * delay for which at least one token fits into every tick.
   */
  method Plan(limit: int) returns (delay: int, split: int, batch: int)
    requires limit > 0
    ensures delay % MILLISECOND == 0 && MILLISECOND <= delay <= 501 * MILLISECOND
    ensures split == SECOND / delay >= 1
    ensures batch >= 1 && batch * split <= limit < (batch + 1) * split
    ensures forall k | 1 <= k && k * MILLISECOND < delay :: SECOND / (k * MILLISECOND) > limit
  {
    batch := 1;
    delay := MILLISECOND;
    ghost var ms := 1;
    while true
      invariant delay == ms * MILLISECOND && 1 <= ms <= 501
      invariant forall k | 1 <= k < ms :: SECOND / (k * MILLISECOND) > limit
      decreases 501 - ms
    {
      SplitBounds(delay);
      split := SECOND / delay;
      batch := limit / split;
      if batch > 0 {
        break;
      }
      delay := delay + MILLISECOND;
      ms := ms + 1;
    }
  }
}
