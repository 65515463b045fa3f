/** Exponential backoff. Durations are in nanoseconds. */
module ExponentialBackoff {
  import opened Arithmetic

  const FACTOR := 1.3

  /** The base, multiplied by the factor so many times. */
  function Multiplied(base: real, times: nat): real {
    if times == 0 then base else FACTOR * Multiplied(base, times - 1)
  }

  lemma {:induction false} MultipliedGrows(base: real, j: nat, k: nat)
    requires 0.0 <= base && j <= k
    ensures 0.0 <= Multiplied(base, j) <= Multiplied(base, k)
    decreases k
  {
    if j < k {
      MultipliedGrows(base, j, k - 1);
    } else if 0 < k {
      MultipliedGrows(base, k - 1, k - 1);
    }
  }

  function AtLeastNone(retries: int): nat {
    if retries < 0 then 0 else retries
  }

  /** The delay, before it is cut to whole nanoseconds. */
  function Delay(baseDelay: int, maxDelay: int, retries: int): real {
    Min(Multiplied(baseDelay as real, AtLeastNone(retries)), maxDelay as real)
  }

  /** The loop stops early once the maximum is reached; that changes nothing. */
  method Backoff(baseDelay: int, maxDelay: int, retries: int) returns (delay: int)
    requires 0 <= baseDelay && 0 <= maxDelay
    ensures delay == Delay(baseDelay, maxDelay, retries).Floor
    ensures 0 <= delay <= maxDelay
  {
    var backoff, max, left := baseDelay as real, maxDelay as real, retries;
    ghost var k: nat := 0;
    while backoff < max && left > 0
      invariant left == retries - k && k <= AtLeastNone(retries)
      invariant backoff == Multiplied(baseDelay as real, k)
      decreases left
    {
      backoff := backoff * FACTOR;
      left, k := left - 1, k + 1;
    }
    MultipliedGrows(baseDelay as real, k, AtLeastNone(retries));
    if backoff > max {
      backoff := max;
    }
    delay := backoff.Floor;
  }

  /** Without retries the delay is the base, and each retry makes it longer by
      thirty percent, up to the maximum. */
  lemma EachRetryAddsThirtyPercent(baseDelay: int, maxDelay: int, retries: int)
    requires 0 <= maxDelay
    ensures retries <= 0 ==> Delay(baseDelay, maxDelay, retries) == Min(baseDelay as real, maxDelay as real)
    ensures 0 <= retries ==>
            Delay(baseDelay, maxDelay, retries + 1) == Min(1.3 * Delay(baseDelay, maxDelay, retries), maxDelay as real)
  {
  }

  /** More retries never shorten the delay. */
  lemma MoreRetriesWaitLonger(baseDelay: int, maxDelay: int, retries: int, more: int)
    requires 0 <= baseDelay && retries <= more
    ensures Delay(baseDelay, maxDelay, retries) <= Delay(baseDelay, maxDelay, more)
  {
    MultipliedGrows(baseDelay as real, AtLeastNone(retries), AtLeastNone(more));
  }
}
