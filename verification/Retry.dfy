/** The outbound retry policy: bounded exponential backoff with a dead letter at the end. */
module Retry {
  import opened Basics

  datatype Policy = Policy(baseDelay: int, maxDelay: int, maxAttempts: int)

  datatype Decision = Decision(nextAttemptAt: Time, dead: bool)

  const DEFAULT_POLICY := Policy(5 * SECOND, 5 * MINUTE, 5)

  /** Next replaces every setting that is not positive by its default. */
  function Effective(p: Policy): (q: Policy)
    ensures q.baseDelay > 0 && q.maxDelay > 0 && q.maxAttempts > 0
    ensures if p.baseDelay > 0 then q.baseDelay == p.baseDelay else q.baseDelay == 5_000_000_000
    ensures if p.maxDelay > 0 then q.maxDelay == p.maxDelay else q.maxDelay == 300_000_000_000
    ensures if p.maxAttempts > 0 then q.maxAttempts == p.maxAttempts else q.maxAttempts == 5
  {
    Policy(if p.baseDelay <= 0 then DEFAULT_POLICY.baseDelay else p.baseDelay,
           if p.maxDelay <= 0 then DEFAULT_POLICY.maxDelay else p.maxDelay,
           if p.maxAttempts <= 0 then DEFAULT_POLICY.maxAttempts else p.maxAttempts)
  }

  function Pow2(n: nat): nat {
    if n == 0 then 1 else 2 * Pow2(n - 1)
  }

  function Min(a: int, b: int): int {
    if a <= b then a else b
  }

  /** base doubled n times. */
  function Doubled(base: int, n: nat): int {
    if n == 0 then base else 2 * Doubled(base, n - 1)
  }

  lemma {:induction false} DoubledIsPower(base: int, n: nat)
    ensures Doubled(base, n) == base * Pow2(n)
  {
    if n > 0 {
      DoubledIsPower(base, n - 1);
    }
  }

  /** The delay after n recorded failures: doubled n times and capped, except that the very
      first delay is never capped. */
  function Delay(p: Policy, n: nat): int {
    if n == 0 then p.baseDelay else Min(Doubled(p.baseDelay, n), p.maxDelay)
  }

  function Decide(p: Policy, attemptCount: nat, now: Time): Decision {
    var q := Effective(p);
    if attemptCount >= q.maxAttempts then Decision(now, true)
    else Decision(now + Delay(q, attemptCount), false)
  }

  lemma {:induction false} DoubledGrows(base: int, m: nat, n: nat)
    requires base > 0 && m <= n
    ensures 0 < Doubled(base, m) <= Doubled(base, n)
    decreases n
  {
    if m < n {
      DoubledGrows(base, m, n - 1);
    } else if m > 0 {
      DoubledGrows(base, m - 1, m - 1);
    }
  }

  /** ExponentialPolicy.Next. */
  method Next(p: Policy, attemptCount: nat, now: Time) returns (d: Decision)
    ensures d == Decide(p, attemptCount, now)
  {
    var q := Effective(p);
    if attemptCount >= q.maxAttempts {
      return Decision(now, true);
    }
    var delay := q.baseDelay;
    var i := 0;
    while i < attemptCount
      invariant 0 <= i <= attemptCount
      invariant delay == Delay(q, i)
    {
      if delay >= q.maxDelay {
        DoubledGrows(q.baseDelay, i, attemptCount);
        delay := q.maxDelay;
        break;
      }
      delay := delay * 2;
      if delay > q.maxDelay {
        DoubledGrows(q.baseDelay, i + 1, attemptCount);
        delay := q.maxDelay;
        break;
      }
      i := i + 1;
    }
    d := Decision(now + delay, false);
  }

  /** The documented delay min(base * 2^n, max) is what the code returns except for the first
      attempt of a policy whose base exceeds its maximum. */
  lemma DelayIsCappedDoubling(p: Policy, n: nat)
    requires p.baseDelay > 0
    ensures Delay(p, n) == Min(p.baseDelay * Pow2(n), p.maxDelay) <==> p.baseDelay <= p.maxDelay || n > 0
  {
    DoubledIsPower(p.baseDelay, n);
  }

  /** Waiting never gets shorter with more failures, exactly when the base is within the maximum. */
  lemma DelayGrowsIffBaseWithinMax(p: Policy)
    requires p.baseDelay > 0
    ensures p.baseDelay <= p.maxDelay <==> forall m: nat, n: nat :: m <= n ==> Delay(p, m) <= Delay(p, n)
  {
    if p.baseDelay <= p.maxDelay {
      forall m: nat, n: nat | m <= n ensures Delay(p, m) <= Delay(p, n) {
        DoubledGrows(p.baseDelay, m, n);
      }
    } else {
      assert Delay(p, 1) <= p.maxDelay < Delay(p, 0);
    }
  }
}
