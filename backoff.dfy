/** Capped exponential backoff of the operator utilities. */
module Backoff {

  function Power(base: nat, k: nat): nat {
    if k == 0 then 1 else base * Power(base, k - 1)
  }

  const DEFAULT_INITIAL_DELAY := 1
  const DEFAULT_MAX_DELAY := 300
  const DEFAULT_BASE := 2

  /** exponential_backoff: initial_delay * base^attempt, capped at max_delay.
      The base is a whole number here, so int() has nothing to truncate. */
  function ExponentialBackoff(attempt: nat, initialDelay: nat, maxDelay: nat, base: nat): (delay: nat)
    ensures delay <= maxDelay
    ensures delay <= initialDelay * Power(base, attempt)
    ensures delay == maxDelay || delay == initialDelay * Power(base, attempt)
    ensures initialDelay * Power(base, attempt) <= maxDelay ==>
              delay == initialDelay * Power(base, attempt)
  {
    var uncapped := initialDelay * Power(base, attempt);
    if uncapped < maxDelay then uncapped else maxDelay
  }

  /** With a base of at least 1, a later attempt never waits less. */
  lemma {:induction false} PowerMonotone(base: nat, i: nat, j: nat)
    requires 1 <= base && i <= j
    ensures Power(base, i) <= Power(base, j)
  {
    if i < j {
      PowerMonotone(base, i, j - 1);
      ScaleUp(base, Power(base, j - 1));
    }
  }

  lemma ScaleUp(factor: nat, x: nat)
    requires 1 <= factor
    ensures x <= factor * x
  {
  }

  lemma MulMonotone(a: nat, x: nat, y: nat)
    requires x <= y
    ensures a * x <= a * y
  {
  }

  lemma BackoffMonotone(i: nat, j: nat, initialDelay: nat, maxDelay: nat, base: nat)
    requires 1 <= base && i <= j
    ensures ExponentialBackoff(i, initialDelay, maxDelay, base) <=
            ExponentialBackoff(j, initialDelay, maxDelay, base)
  {
    PowerMonotone(base, i, j);
    MulMonotone(initialDelay, Power(base, i), Power(base, j));
  }

  /** Once the cap is reached it stays reached. */
  lemma BackoffStaysCapped(i: nat, j: nat, initialDelay: nat, maxDelay: nat, base: nat)
    requires 1 <= base && i <= j
    requires ExponentialBackoff(i, initialDelay, maxDelay, base) == maxDelay
    ensures ExponentialBackoff(j, initialDelay, maxDelay, base) == maxDelay
  {
    BackoffMonotone(i, j, initialDelay, maxDelay, base);
  }

  /** With the defaults (1, 300, 2): 256 seconds before attempt 8 is the last
      uncapped delay, and from attempt 9 on the delay is 300. */
  lemma DefaultSchedule(attempt: nat)
    ensures attempt <= 8 ==>
      ExponentialBackoff(attempt, DEFAULT_INITIAL_DELAY, DEFAULT_MAX_DELAY, DEFAULT_BASE) == Power(2, attempt)
    ensures attempt >= 9 ==>
      ExponentialBackoff(attempt, DEFAULT_INITIAL_DELAY, DEFAULT_MAX_DELAY, DEFAULT_BASE) == 300
  {
    assert Power(2, 8) == 256 by {
      assert Power(2, 4) == 16;
    }
    assert Power(2, 9) == 512;
    if attempt <= 8 {
      PowerMonotone(2, attempt, 8);
    } else {
      PowerMonotone(2, 9, attempt);
    }
  }
}
