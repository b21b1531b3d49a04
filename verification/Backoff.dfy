/** Retry backoff: deterministic jitter, and the startup bound on the sleep of one bounded retry loop. */
module Backoff {
  import opened Common

  const TWO_64: nat := 0x1_0000_0000_0000_0000

  /** Durations in nanoseconds. */
  datatype Policy = Policy(base: nat, maximum: nat, maxRetries: nat)

  /** Delays are configured in whole, positive milliseconds. */
  predicate ValidPolicy(p: Policy) {
    MS <= p.base <= p.maximum < TWO_64 && p.maxRetries <= 32
  }

  function Times(a: nat, b: nat): nat {
    a * b
  }

  function Exponential(base: nat, maximum: nat, attempt: nat): nat {
    Min(Times(base, Pow2(Min(attempt, 16))), maximum)
  }

  /** The wrapping 64-bit hash that spreads retries. */
  function Hash(state: nat, entropy: seq<nat>): nat
    decreases |entropy|
  {
    if entropy == [] then state else Hash((state * 1_099_511_628_211 + entropy[0]) % TWO_64, entropy[1..])
  }

  function BasisPoints(attempt: nat, entropy: seq<nat>): (bp: nat)
    ensures 8_000 <= bp <= 12_000
  {
    8_000 + Hash((attempt + 0x9e37_79b9) % TWO_64, entropy) % 4_001
  }

  function Jittered(nanos: nat, basisPoints: nat): nat {
    nanos * basisPoints / 10_000
  }

  /** retry_delay. */
  function RetryDelay(base: nat, maximum: nat, attempt: nat, entropy: seq<nat>): nat {
    Min(Min(Jittered(Exponential(base, maximum, attempt), BasisPoints(attempt, entropy)), TWO_64 - 1), maximum)
  }

  /** The bound the configuration adds up for one attempt. */
  function AttemptBound(base: nat, maximum: nat, attempt: nat): nat {
    Min(Exponential(base, maximum, attempt) * 6 / 5, maximum)
  }

  function Total(delay: nat -> nat, attempts: nat): nat {
    if attempts == 0 then 0 else Total(delay, attempts - 1) + delay(attempts - 1)
  }

  function Bounds(base: nat, maximum: nat): nat -> nat {
    (attempt: nat) => AttemptBound(base, maximum, attempt)
  }

  /** retry_backoff_upper_bound. */
  method RetryBackoffUpperBound(base: nat, maximum: nat, retryCount: nat) returns (total: nat)
    ensures total == Total(Bounds(base, maximum), retryCount)
  {
    total := 0;
    for attempt := 0 to retryCount
      invariant total == Total(Bounds(base, maximum), attempt)
    {
      total := total + Bounds(base, maximum)(attempt);
    }
  }

  lemma TimesMonotone(a: nat, b: nat, c: nat)
    requires b <= c
    ensures a * b <= a * c
  {
    assert a * (c - b) >= 0;
  }

  lemma JitterBelow(e: nat, bp: nat)
    requires 8_000 <= bp <= 12_000
    ensures Jittered(e, bp) <= e * 6 / 5
  {
    TimesMonotone(e, bp, 12_000);
    assert e * 12_000 / 10_000 == e * 6 / 5;
  }

  lemma JitterAbove(e: nat, bp: nat)
    requires 8_000 <= bp && e >= 2
    ensures Jittered(e, bp) >= e * 4 / 5 >= 1
  {
    TimesMonotone(e, 8_000, bp);
    assert e * 8_000 / 10_000 == e * 4 / 5;
  }

  lemma ExponentialAtLeastBase(p: Policy, attempt: nat)
    requires ValidPolicy(p)
    ensures p.base <= Exponential(p.base, p.maximum, attempt) <= p.maximum
  {
    TimesMonotone(p.base, 1, Pow2(Min(attempt, 16)));
  }

  /** Every sleep is positive, at least 80% of the exponential delay, and within its planned bound and the maximum. */
  lemma DelayIsBounded(p: Policy, attempt: nat, entropy: seq<nat>)
    requires ValidPolicy(p)
    ensures 0 < RetryDelay(p.base, p.maximum, attempt, entropy) <= AttemptBound(p.base, p.maximum, attempt) <= p.maximum
    ensures RetryDelay(p.base, p.maximum, attempt, entropy) >= Exponential(p.base, p.maximum, attempt) * 4 / 5
  {
    var e, bp := Exponential(p.base, p.maximum, attempt), BasisPoints(attempt, entropy);
    ExponentialAtLeastBase(p, attempt);
    JitterBelow(e, bp);
    JitterAbove(e, bp);
  }

  /** A sleep below the maximum is the exponential delay scaled by its basis points, rounded down to whole nanoseconds. */
  lemma DelayIsScaled(p: Policy, attempt: nat, entropy: seq<nat>)
    requires ValidPolicy(p)
    ensures var d, e, bp := RetryDelay(p.base, p.maximum, attempt, entropy), Exponential(p.base, p.maximum, attempt), BasisPoints(attempt, entropy);
            if Times(e, bp) < Times(p.maximum, 10_000) then Times(d, 10_000) <= Times(e, bp) < Times(d, 10_000) + 10_000 else d == p.maximum
  {
  }

  lemma TimesOne(a: nat)
    ensures Times(a, Pow2(0)) == a
  {
  }

  lemma TimesDouble(a: nat, m: nat)
    ensures Times(a, 2 * m) == 2 * Times(a, m)
  {
  }

  /** The exponential delay starts at the base and doubles up to the maximum, sixteen times at most. */
  lemma ExponentialDoubles(p: Policy, attempt: nat)
    requires ValidPolicy(p)
    ensures Exponential(p.base, p.maximum, 0) == p.base
    ensures Exponential(p.base, p.maximum, attempt + 1)
         == if attempt < 16 then Min(2 * Exponential(p.base, p.maximum, attempt), p.maximum) else Exponential(p.base, p.maximum, attempt)
  {
    TimesOne(p.base);
    if attempt < 16 {
      TimesDouble(p.base, Pow2(attempt));
    }
  }

  // ---- One bounded loop ----------------------------------------------------------------------

  /**
   How one try ends: acknowledged, not acknowledged, or refused for good because the owner check
   failed before the publication or the completion found a newer owner.
   */
  datatype Try = Acked | Failed | Refused

  /** Try `n` is the first that settles the matter. */
  predicate Decides(outcomes: seq<Try>, n: nat) {
    n < |outcomes| && !outcomes[n].Failed? && forall m :: 0 <= m < n ==> outcomes[m].Failed?
  }

  /**
   A bounded publication or completion loop: up to maxRetries + 1 tries, a sleep after every failed
   try but the last, no further try and no sleep after a refusal.
   */
  method SettleWithRetry(delay: nat -> nat, maxRetries: nat, outcomes: seq<Try>) returns (end: Try, slept: nat, tries: nat)
    requires |outcomes| == maxRetries + 1
    ensures 1 <= tries <= maxRetries + 1 && slept == Total(delay, tries - 1)
    ensures !end.Failed? ==> Decides(outcomes, tries - 1) && end == outcomes[tries - 1]
    ensures end.Failed? <==> forall n :: 0 <= n < |outcomes| ==> outcomes[n].Failed?
    ensures end.Failed? ==> tries == maxRetries + 1
  {
    slept := 0;
    for attempt := 0 to maxRetries
      invariant slept == Total(delay, attempt)
      invariant forall n :: 0 <= n < attempt ==> outcomes[n].Failed?
    {
      if !outcomes[attempt].Failed? {
        return outcomes[attempt], slept, attempt + 1;
      }
      slept := slept + delay(attempt);
    }
    return outcomes[maxRetries], slept, maxRetries + 1;
  }

  /** The loop succeeds exactly when some try is acknowledged before any is refused. */
  lemma AckedBeforeRefused(outcomes: seq<Try>, n: nat)
    requires Decides(outcomes, n)
    ensures outcomes[n].Acked? <==> exists k :: 0 <= k < |outcomes| && outcomes[k].Acked? && forall m :: 0 <= m < k ==> !outcomes[m].Refused?
  {
    if outcomes[n].Refused? {
      forall k | 0 <= k < |outcomes| && outcomes[k].Acked? ensures exists m :: 0 <= m < k && outcomes[m].Refused? {
        assert k > n;
      }
    }
  }

  /** The delays of one loop: the policy's, spread by the execution key. */
  function Delays(p: Policy, entropy: seq<nat>): nat -> nat {
    (attempt: nat) => RetryDelay(p.base, p.maximum, attempt, entropy)
  }

  lemma {:induction false} TotalMonotone(f: nat -> nat, g: nat -> nat, m: nat, n: nat)
    requires m <= n && forall a: nat :: f(a) <= g(a)
    ensures Total(f, m) <= Total(g, n)
    decreases n
  {
    if m < n {
      TotalMonotone(f, g, m, n - 1);
    } else if m > 0 {
      TotalMonotone(f, g, m - 1, n - 1);
    }
  }

  /** The startup bound dominates every loop: however it ends, it slept no longer than the bound. */
  lemma LoopSleepsWithinStartupBound(p: Policy, entropy: seq<nat>, tries: nat)
    requires ValidPolicy(p) && 1 <= tries <= p.maxRetries + 1
    ensures Total(Delays(p, entropy), tries - 1) <= Total(Bounds(p.base, p.maximum), p.maxRetries)
  {
    forall attempt: nat ensures Delays(p, entropy)(attempt) <= Bounds(p.base, p.maximum)(attempt) {
      DelayIsBounded(p, attempt, entropy);
    }
    TotalMonotone(Delays(p, entropy), Bounds(p.base, p.maximum), tries - 1, p.maxRetries);
  }
}
