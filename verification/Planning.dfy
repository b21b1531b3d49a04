/** Splitting a scenario's load over slices. Rates and durations are exact reals. */
module Planning {
  import opened Common

  const TARGET_SPS_PER_SLICE: real := 10.0
  const TARGET_CONCURRENCY_PER_SLICE: nat := 25
  const MAX_AUTO_SLICES: nat := 128

  datatype Load = Load(rate: real, duration: real, concurrency: nat, burst: nat)

  function Ceil(x: real): int {
    -((-x).Floor)
  }

  function CeilDiv(a: nat, b: nat): nat
    requires b > 0
  {
    (a + b - 1) / b
  }

  /** Paced starts that a window of `duration` seconds is expected to fit. */
  function Starts(rate: real, duration: real): real {
    rate * duration
  }

  /** calculate_slices. */
  function Slices(rate: real, concurrency: nat, duration: real): (n: nat)
    ensures n >= 1
  {
    if rate <= 0.0 || concurrency == 0 then 1
    else
      var byRate := Max(1, Ceil(rate / TARGET_SPS_PER_SLICE));
      var byConcurrency := CeilDiv(concurrency, TARGET_CONCURRENCY_PER_SLICE);
      var startCap := Max(1, Starts(rate, duration).Floor);
      Min(Min(Min(Max(Max(byRate, byConcurrency), 1), concurrency), startCap), MAX_AUTO_SLICES)
  }

  /** An even share: the first `total % n` slices get one more. */
  function Share(total: nat, n: nat, index: nat): nat
    requires n >= 1
  {
    total / n + (if index < total % n then 1 else 0)
  }

  function SliceLoad(load: Load, n: nat, index: nat): Load
    requires n >= 1
  {
    Load(load.rate / n as real, load.duration, Share(load.concurrency, n, index), Share(load.burst, n, index))
  }

  /** planned_slice_loads. */
  function Plan(load: Load): (loads: seq<Load>)
    ensures |loads| == Slices(load.rate, load.concurrency, load.duration)
  {
    var n := Slices(load.rate, load.concurrency, load.duration);
    seq(n, i requires 0 <= i < n => SliceLoad(load, n, i))
  }

  // ---- Shares add up -------------------------------------------------------------------------

  function SumShares(total: nat, n: nat, upto: nat): nat
    requires n >= 1
  {
    if upto == 0 then 0 else SumShares(total, n, upto - 1) + Share(total, n, upto - 1)
  }

  lemma {:induction false} SharesUpTo(total: nat, n: nat, upto: nat)
    requires n >= 1 && upto <= n
    ensures SumShares(total, n, upto) == upto * (total / n) + Min(upto, total % n)
  {
    if upto > 0 {
      SharesUpTo(total, n, upto - 1);
      assert upto * (total / n) == (upto - 1) * (total / n) + total / n;
    }
  }

  /** Concurrency and burst shares sum to the global values. */
  lemma SharesConserve(total: nat, n: nat)
    requires n >= 1
    ensures SumShares(total, n, n) == total
  {
    SharesUpTo(total, n, n);
    assert n * (total / n) + total % n == total;
  }

  lemma QuotientBounds(total: nat, n: nat, q: nat)
    requires n >= 1 && q * n <= total
    ensures q <= total / n
  {
    if total / n < q {
      MulMonotone(total / n + 1, q, n);
    }
  }

  /** A larger total gives every slice at least as much. */
  lemma ShareMonotone(a: nat, b: nat, n: nat, index: nat)
    requires n >= 1 && a <= b
    ensures Share(a, n, index) <= Share(b, n, index)
  {
    assert a == n * (a / n) + a % n && b == n * (b / n) + b % n;
    QuotientBounds(b, n, a / n);
    if a / n == b / n {
      assert a % n <= b % n;
    }
  }

  // ---- Admissible plans ----------------------------------------------------------------------

  /** What startup admission demands of a scenario's load. */
  predicate Admitted(load: Load) {
    && load.rate > 0.0 && load.duration >= 0.0 && load.concurrency >= 1 && load.burst <= load.concurrency
    && !(load.burst == 0 && Starts(load.rate, load.duration) < 1.0)
  }

  /** The worker's zero-start test: no paced start fits the window and no burst is allowed. */
  predicate ZeroStart(load: Load) {
    load.burst == 0 && Starts(load.rate, load.duration) < 1.0
  }

  /** Splitting a window that fits at least `n` starts leaves at least one per slice. */
  lemma SliceFitsOneStart(rate: real, duration: real, n: nat)
    requires n >= 1 && Starts(rate, duration) >= n as real
    ensures Starts(rate / n as real, duration) >= 1.0
  {
    var m := n as real;
    assert (rate / m) * duration == (rate * duration) / m;
    assert (rate * duration) / m >= m / m;
  }

  lemma FloorBelow(n: int, x: real)
    requires n <= x.Floor
    ensures n as real <= x
  {
  }

  lemma SliceCountIsBounded(load: Load)
    requires Admitted(load)
    ensures var n := Slices(load.rate, load.concurrency, load.duration);
            && 1 <= n <= MAX_AUTO_SLICES && n <= load.concurrency
            && (n == 1 || n as real <= Starts(load.rate, load.duration))
  {
    var n := Slices(load.rate, load.concurrency, load.duration);
    if n > 1 {
      FloorBelow(n, Starts(load.rate, load.duration));
    }
  }

  /** Whatever the load, the slice count respects every cap; a load with nothing to pace or to run is one slice. */
  lemma SliceCountRespectsCaps(load: Load)
    ensures var n := |Plan(load)|;
            && 1 <= n <= MAX_AUTO_SLICES && n <= Max(1, load.concurrency) && n <= Max(1, Starts(load.rate, load.duration).Floor)
            && (load.rate <= 0.0 || load.concurrency == 0 ==> n == 1)
    ensures MAX_AUTO_SLICES == 128
  {
  }

  lemma CeilAbove(x: real)
    ensures x <= Ceil(x) as real < x + 1.0
  {
  }

  lemma CeilDivAbove(a: nat, b: nat)
    requires b > 0
    ensures a <= CeilDiv(a, b) * b < a + b
  {
  }

  /** Unless a cap binds, the slice count is the least that keeps every slice within both targets. */
  lemma SlicesMeetTargetsUnlessCapped(load: Load)
    requires Admitted(load)
    ensures var n := Slices(load.rate, load.concurrency, load.duration);
            var capped := n == load.concurrency || n == Max(1, Starts(load.rate, load.duration).Floor) || n == MAX_AUTO_SLICES;
            && (!capped ==> MeetsTargets(load, n))
            && (n > 1 ==> !MeetsTargets(load, n - 1))
  {
    CeilAbove(load.rate / TARGET_SPS_PER_SLICE);
    CeilDivAbove(load.concurrency, TARGET_CONCURRENCY_PER_SLICE);
  }

  predicate MeetsTargets(load: Load, n: nat) {
    load.rate <= TARGET_SPS_PER_SLICE * n as real && load.concurrency <= TARGET_CONCURRENCY_PER_SLICE * n
  }

  lemma SliceIsAdmissible(load: Load, n: nat, index: nat)
    requires Admitted(load) && 1 <= n <= load.concurrency && (n == 1 || n as real <= Starts(load.rate, load.duration)) && index < n
    ensures var slice := SliceLoad(load, n, index);
            slice.concurrency >= 1 && slice.burst <= slice.concurrency && !ZeroStart(slice)
  {
    QuotientBounds(load.concurrency, n, 1);
    ShareMonotone(load.burst, load.concurrency, n, index);
    var slice := SliceLoad(load, n, index);
    if n as real <= Starts(load.rate, load.duration) {
      SliceFitsOneStart(load.rate, load.duration, n);
    } else {
      assert slice.burst == load.burst;
    }
  }

  /**
   Every slice of an admitted scenario can run: at least one unit of concurrency, no more burst than
   concurrency, and never a plan that the worker would dead-letter as starting nothing.
   */
  lemma PlannedSlicesAreAdmissible(load: Load, index: nat)
    requires Admitted(load) && index < |Plan(load)|
    ensures var slice := Plan(load)[index];
            slice.concurrency >= 1 && slice.burst <= slice.concurrency && !ZeroStart(slice)
  {
    SliceCountIsBounded(load);
    SliceIsAdmissible(load, |Plan(load)|, index);
  }

  lemma SharedRate(rate: real, n: nat)
    requires n >= 1
    ensures (rate / n as real) * n as real == rate
  {
  }

  lemma SharePlanned(load: Load, n: nat, i: nat)
    requires n >= 1
    ensures PlansShare(load, n, i, SliceLoad(load, n, i))
  {
    SharedRate(load.rate, n);
  }

  /** The plan spends exactly the scenario's concurrency, burst and rate. */
  lemma PlanConserves(load: Load)
    ensures var n := |Plan(load)|;
            && n >= 1 && SumShares(load.concurrency, n, n) == load.concurrency && SumShares(load.burst, n, n) == load.burst
            && forall i :: 0 <= i < n ==> PlansShare(load, n, i, Plan(load)[i])
  {
    var n := Slices(load.rate, load.concurrency, load.duration);
    SharesConserve(load.concurrency, n);
    SharesConserve(load.burst, n);
    forall i | 0 <= i < n ensures PlansShare(load, n, i, Plan(load)[i]) {
      SharePlanned(load, n, i);
    }
  }

  predicate PlansShare(load: Load, n: nat, i: nat, slice: Load) {
    && n >= 1 && slice.concurrency == Share(load.concurrency, n, i) && slice.burst == Share(load.burst, n, i)
    && slice.rate * n as real == load.rate && slice.duration == load.duration
  }
}
