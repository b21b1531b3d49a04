/**
 Mergeable latency histograms: validation, pointwise merging, and quantiles of merged histograms.
 */
module Histogram {
  import opened Common

  const U64_MAX: nat := 0xFFFF_FFFF_FFFF_FFFF
  const MAX_CONTRACT_HISTOGRAM_BUCKETS: nat := 128

  /** `bound` is an inclusive upper bound in milliseconds; `U64_MAX` is the overflow bucket. */
  datatype Bucket = Bucket(bound: nat, count: nat)

  function Bounds(h: seq<Bucket>): (bs: seq<nat>)
    ensures |bs| == |h| && forall i :: 0 <= i < |h| ==> bs[i] == h[i].bound
  {
    seq(|h|, i requires 0 <= i < |h| => h[i].bound)
  }

  function Counts(h: seq<Bucket>): (cs: seq<nat>)
    ensures |cs| == |h| && forall i :: 0 <= i < |h| ==> cs[i] == h[i].count
  {
    seq(|h|, i requires 0 <= i < |h| => h[i].count)
  }

  function Zip(bounds: seq<nat>, counts: seq<nat>): (h: seq<Bucket>)
    requires |bounds| == |counts|
    ensures |h| == |bounds| && forall i :: 0 <= i < |h| ==> h[i] == Bucket(bounds[i], counts[i])
  {
    seq(|bounds|, i requires 0 <= i < |bounds| => Bucket(bounds[i], counts[i]))
  }

  predicate StrictlyIncreasing(bs: seq<nat>) {
    forall i, j :: 0 <= i < j < |bs| ==> bs[i] < bs[j]
  }

  /** What `validate_latency_buckets` accepts. An empty histogram is a version 1 record. */
  predicate ValidBuckets(h: seq<Bucket>, total: nat) {
    && |h| <= MAX_CONTRACT_HISTOGRAM_BUCKETS
    && (h != [] ==> StrictlyIncreasing(Bounds(h)) && Sum(Counts(h)) == total)
  }

  lemma {:induction false} SumLast(xs: seq<nat>, n: nat)
    requires n < |xs|
    ensures Sum(xs[..n + 1]) == Sum(xs[..n]) + xs[n]
  {
    SumAppend(xs[..n], [xs[n]]);
    assert xs[..n + 1] == xs[..n] + [xs[n]];
  }

  lemma {:induction false} SumOfPrefix(xs: seq<nat>, n: nat)
    requires n <= |xs|
    ensures Sum(xs[..n]) <= Sum(xs)
  {
    SumAppend(xs[..n], xs[n..]);
    assert xs == xs[..n] + xs[n..];
  }

  /** The validation loop, with the running count checked against `u64`. */
  method ValidateLatencyBuckets(h: seq<Bucket>, total: nat) returns (ok: bool)
    requires total <= U64_MAX
    ensures ok <==> ValidBuckets(h, total)
  {
    if |h| > MAX_CONTRACT_HISTOGRAM_BUCKETS {
      return false;
    }
    if h == [] {
      return true;
    }
    var previous: Option<nat> := None;
    var count := 0;
    for i := 0 to |h|
      invariant i == 0 ==> previous == None
      invariant i > 0 ==> previous == Some(h[i - 1].bound)
      invariant StrictlyIncreasing(Bounds(h)[..i])
      invariant count == Sum(Counts(h)[..i])
    {
      if previous.Some? && h[i].bound <= previous.value {
        assert Bounds(h)[i] <= Bounds(h)[i - 1];
        return false;
      }
      SumLast(Counts(h), i);
      if count + h[i].count > U64_MAX {
        SumOfPrefix(Counts(h), i + 1);
        return false;
      }
      previous := Some(h[i].bound);
      count := count + h[i].count;
    }
    assert Bounds(h)[..|h|] == Bounds(h) && Counts(h)[..|h|] == Counts(h);
    return count == total;
  }

  // ---- Merging -------------------------------------------------------------------------------

  function At(xs: seq<nat>, i: nat): nat {
    if i < |xs| then xs[i] else 0
  }

  /** One HINCRBY per bucket index; a field that is absent counts as zero. */
  function AddCounts(a: seq<nat>, b: seq<nat>): (c: seq<nat>)
    ensures |c| == Max(|a|, |b|)
    ensures forall i: nat :: At(c, i) == At(a, i) + At(b, i)
  {
    seq(Max(|a|, |b|), i requires 0 <= i < Max(|a|, |b|) => At(a, i) + At(b, i))
  }

  lemma AddNothing(a: seq<nat>)
    ensures AddCounts([], a) == a && AddCounts(a, []) == a
  {
    var l, r := AddCounts([], a), AddCounts(a, []);
    forall i | 0 <= i < |a| ensures l[i] == a[i] && r[i] == a[i] {
      assert At(l, i) == At(a, i) && At(r, i) == At(a, i);
    }
  }

  lemma AddCountsSwap(a: seq<nat>, b: seq<nat>, c: seq<nat>)
    ensures AddCounts(AddCounts(a, b), c) == AddCounts(AddCounts(a, c), b)
  {
    var l, r := AddCounts(AddCounts(a, b), c), AddCounts(AddCounts(a, c), b);
    forall i | 0 <= i < |l| ensures l[i] == r[i] {
      assert l[i] == At(l, i) && r[i] == At(r, i);
    }
  }

  lemma {:induction false} SumAddCounts(a: seq<nat>, b: seq<nat>)
    ensures Sum(AddCounts(a, b)) == Sum(a) + Sum(b)
    decreases |a| + |b|
  {
    var c := AddCounts(a, b);
    if a == [] {
      AddNothing(b);
    } else if b == [] {
      AddNothing(a);
    } else {
      SumAddCounts(a[1..], b[1..]);
      assert c[0] == At(c, 0);
      var d := AddCounts(a[1..], b[1..]);
      forall i | 0 <= i < |d| ensures c[1..][i] == d[i] {
        assert c[i + 1] == At(c, i + 1) && d[i] == At(d, i);
      }
      assert c[1..] == d;
    }
  }

  // ---- Quantiles -----------------------------------------------------------------------------

  /** A quantile as an exact fraction, for example 95/100. */
  datatype Fraction = Fraction(num: nat, den: nat)

  predicate ValidFraction(q: Fraction) {
    0 < q.num <= q.den
  }

  /** `(total * q).ceil().max(1.0)`. */
  function Rank(total: nat, q: Fraction): (r: nat)
    requires ValidFraction(q) && total > 0
    ensures 1 <= r
  {
    Max(1, (total * q.num + q.den - 1) / q.den)
  }

  lemma CeilDivBound(a: int, d: int, n: int)
    requires d > 0 && a <= n * d
    ensures (a + d - 1) / d <= n
  {
    var k := (a + d - 1) / d;
    assert k * d <= a + d - 1;
    assert (n + 1) * d == n * d + d;
    if k > n {
      MulMonotone(n + 1, k, d);
    }
  }

  lemma RankIsReachable(total: nat, q: Fraction)
    requires ValidFraction(q) && total > 0
    ensures Rank(total, q) <= total
  {
    assert total * (q.den - q.num) >= 0;
    assert total * q.num + total * (q.den - q.num) == total * q.den;
    CeilDivBound(total * q.num, q.den, total);
  }

  /** What is reported for bucket `i`: its bound, or the previous bound for the overflow bucket. */
  function Reported(h: seq<Bucket>, i: nat): nat
    requires i < |h|
  {
    if h[i].bound == U64_MAX then (if i == 0 then 0 else h[i - 1].bound) else h[i].bound
  }

  /** `i` is the first bucket whose cumulative count reaches `rank`. */
  predicate FirstReaching(counts: seq<nat>, rank: nat, i: nat) {
    i < |counts| && Sum(counts[..i]) < rank <= Sum(counts[..i + 1])
  }

  /** `value` is reported for the bucket that the quantile falls into; an empty histogram reports zero. */
  ghost predicate IsQuantile(h: seq<Bucket>, q: Fraction, value: nat)
    requires ValidFraction(q)
  {
    if Sum(Counts(h)) == 0 then value == 0
    else exists i :: FirstReaching(Counts(h), Rank(Sum(Counts(h)), q), i) && value == Reported(h, i)
  }

  method HistogramQuantile(h: seq<Bucket>, q: Fraction) returns (value: nat)
    requires ValidFraction(q)
    ensures IsQuantile(h, q, value)
  {
    var counts := Counts(h);
    var total := 0;
    for i := 0 to |h|
      invariant total == Sum(counts[..i])
    {
      SumLast(counts, i);
      total := total + h[i].count;
    }
    assert counts[..|h|] == counts;
    if total == 0 {
      return 0;
    }
    var rank := Rank(total, q);
    var cumulative, previous := 0, 0;
    for i := 0 to |h|
      invariant cumulative == Sum(counts[..i]) < rank
      invariant previous == if i == 0 then 0 else h[i - 1].bound
    {
      SumLast(counts, i);
      cumulative := cumulative + h[i].count;
      if cumulative >= rank {
        assert FirstReaching(counts, rank, i);
        return if h[i].bound == U64_MAX then previous else h[i].bound;
      }
      previous := h[i].bound;
    }
    RankIsReachable(total, q);
    assert false;
  }

  // ---- Merged quantiles are true quantiles ---------------------------------------------------

  function CountLe(obs: seq<nat>, x: nat): nat {
    if obs == [] then 0 else (if obs[0] <= x then 1 else 0) + CountLe(obs[1..], x)
  }

  function CountLt(obs: seq<nat>, x: nat): nat {
    if x == 0 then 0 else CountLe(obs, x - 1)
  }

  /** `x` is the `rank`-th smallest observation. */
  predicate IsRanked(obs: seq<nat>, rank: nat, x: nat) {
    x in obs && CountLt(obs, x) < rank <= CountLe(obs, x)
  }

  /** A slice's counts describe its observations: bucket `i` holds those in `(bounds[i-1], bounds[i]]`. */
  ghost predicate Describes(bounds: seq<nat>, counts: seq<nat>, obs: seq<nat>) {
    && |counts| == |bounds| > 0
    && forall i :: 0 <= i < |bounds| ==> Sum(counts[..i + 1]) == CountLe(obs, bounds[i])
  }

  lemma {:induction false} CountLeAppend(a: seq<nat>, b: seq<nat>, x: nat)
    ensures CountLe(a + b, x) == CountLe(a, x) + CountLe(b, x)
  {
    if a == [] {
      assert a + b == b;
    } else {
      assert (a + b)[1..] == a[1..] + b;
      CountLeAppend(a[1..], b, x);
    }
  }

  lemma {:induction false} CountLeMonotone(obs: seq<nat>, x: nat, y: nat)
    requires x <= y
    ensures CountLe(obs, x) <= CountLe(obs, y) <= |obs|
  {
    if obs != [] {
      CountLeMonotone(obs[1..], x, y);
    }
  }

  /** The count of bucket `i`: the observations up to its bound and beyond the previous one. */
  function BucketCount(bounds: seq<nat>, obs: seq<nat>, i: nat): nat
    requires StrictlyIncreasing(bounds) && i < |bounds|
  {
    if i == 0 then CountLe(obs, bounds[0])
    else CountLeMonotone(obs, bounds[i - 1], bounds[i]); CountLe(obs, bounds[i]) - CountLe(obs, bounds[i - 1])
  }

  function Bucketize(bounds: seq<nat>, obs: seq<nat>): (counts: seq<nat>)
    requires StrictlyIncreasing(bounds)
    ensures |counts| == |bounds| && forall i :: 0 <= i < |bounds| ==> counts[i] == BucketCount(bounds, obs, i)
  {
    seq(|bounds|, i requires 0 <= i < |bounds| => BucketCount(bounds, obs, i))
  }

  lemma {:induction false} BucketsTelescope(bounds: seq<nat>, obs: seq<nat>, i: nat)
    requires StrictlyIncreasing(bounds) && i < |bounds|
    ensures Sum(Bucketize(bounds, obs)[..i + 1]) == CountLe(obs, bounds[i])
  {
    SumLast(Bucketize(bounds, obs), i);
    if i > 0 {
      BucketsTelescope(bounds, obs, i - 1);
    }
  }

  /** Sorting observations into buckets describes them. */
  lemma BucketizeDescribes(bounds: seq<nat>, obs: seq<nat>)
    requires StrictlyIncreasing(bounds) && bounds != []
    ensures Describes(bounds, Bucketize(bounds, obs), obs)
  {
    forall i | 0 <= i < |bounds| ensures Sum(Bucketize(bounds, obs)[..i + 1]) == CountLe(obs, bounds[i]) {
      BucketsTelescope(bounds, obs, i);
    }
  }

  /** Pointwise merging describes all observations together. */
  lemma MergeDescribesTogether(bounds: seq<nat>, a: seq<nat>, b: seq<nat>, obsA: seq<nat>, obsB: seq<nat>)
    requires Describes(bounds, a, obsA) && Describes(bounds, b, obsB)
    ensures Describes(bounds, AddCounts(a, b), obsA + obsB)
  {
    var c := AddCounts(a, b);
    forall i | 0 <= i < |bounds| ensures Sum(c[..i + 1]) == CountLe(obsA + obsB, bounds[i]) {
      var d := AddCounts(a[..i + 1], b[..i + 1]);
      forall k | 0 <= k < |d| ensures c[k] == d[k] {
        assert c[k] == At(c, k) && d[k] == At(d, k);
      }
      assert c[..i + 1] == d;
      SumAddCounts(a[..i + 1], b[..i + 1]);
      CountLeAppend(obsA, obsB, bounds[i]);
    }
  }

  /**
   The bucket a quantile stops at is the bucket that holds the rank-th smallest observation: the
   first bucket whose bound is at least that observation.
   */
  lemma QuantileBucketHoldsRankedObservation(bounds: seq<nat>, counts: seq<nat>, obs: seq<nat>, rank: nat, i: nat,
                                             x: nat)
    requires Describes(bounds, counts, obs) && StrictlyIncreasing(bounds)
    requires FirstReaching(counts, rank, i) && IsRanked(obs, rank, x)
    ensures x <= bounds[i] && (i > 0 ==> bounds[i - 1] < x)
  {
    if x > bounds[i] {
      CountLeMonotone(obs, bounds[i], x - 1);
      assert false;
    }
    if i > 0 {
      var below := i - 1;
      assert Sum(counts[..below + 1]) == CountLe(obs, bounds[below]);
      if x <= bounds[below] {
        CountLeMonotone(obs, x, bounds[below]);
      }
    }
  }

  /** Merging slices one by one, as aggregation does. */
  function MergeAll(parts: seq<seq<nat>>): seq<nat> {
    if parts == [] then [] else AddCounts(MergeAll(parts[..|parts| - 1]), parts[|parts| - 1])
  }

  function Flatten(parts: seq<seq<nat>>): seq<nat> {
    if parts == [] then [] else Flatten(parts[..|parts| - 1]) + parts[|parts| - 1]
  }

  lemma {:induction false} MergeAllDescribesAll(bounds: seq<nat>, counts: seq<seq<nat>>, obs: seq<seq<nat>>)
    requires |counts| == |obs| > 0
    requires forall k :: 0 <= k < |counts| ==> Describes(bounds, counts[k], obs[k])
    ensures Describes(bounds, MergeAll(counts), Flatten(obs))
  {
    var n := |counts| - 1;
    if n == 0 {
      assert counts[..0] == [] && obs[..0] == [];
      AddNothing(counts[0]);
      assert Flatten(obs) == obs[0];
    } else {
      MergeAllDescribesAll(bounds, counts[..n], obs[..n]);
      MergeDescribesTogether(bounds, MergeAll(counts[..n]), counts[n], Flatten(obs[..n]), obs[n]);
    }
  }

  // ---- The ranked observation exists -----------------------------------------------------------

  lemma {:induction false} CountGrowsAtAnObservation(obs: seq<nat>, x: nat)
    requires CountLt(obs, x) < CountLe(obs, x)
    ensures x in obs
  {
    if obs[0] != x {
      CountGrowsAtAnObservation(obs[1..], x);
    }
  }

  lemma {:induction false} FindRanked(obs: seq<nat>, rank: nat, high: nat) returns (x: nat)
    requires 1 <= rank <= CountLe(obs, high)
    ensures IsRanked(obs, rank, x)
  {
    if high == 0 || CountLe(obs, high - 1) < rank {
      x := high;
      CountGrowsAtAnObservation(obs, x);
    } else {
      x := FindRanked(obs, rank, high - 1);
    }
  }

  // ---- The value that is reported ----------------------------------------------------------------

  lemma {:induction false} CountAll(obs: seq<nat>, high: nat)
    requires forall k :: 0 <= k < |obs| ==> obs[k] <= high
    ensures CountLe(obs, high) == |obs|
  {
    if obs != [] {
      CountAll(obs[1..], high);
    }
  }

  lemma {:induction false} FlattenBounded(parts: seq<seq<nat>>, high: nat)
    requires forall k, j :: 0 <= k < |parts| && 0 <= j < |parts[k]| ==> parts[k][j] <= high
    ensures forall j :: 0 <= j < |Flatten(parts)| ==> Flatten(parts)[j] <= high
  {
    if parts != [] {
      FlattenBounded(parts[..|parts| - 1], high);
    }
  }

  /** The last bucket is the overflow bucket, so every `u64` observation is in some bucket. */
  predicate HasOverflow(bounds: seq<nat>) {
    StrictlyIncreasing(bounds) && bounds != [] && bounds[|bounds| - 1] == U64_MAX
  }

  lemma DescribedTotal(bounds: seq<nat>, counts: seq<nat>, obs: seq<nat>)
    requires Describes(bounds, counts, obs) && HasOverflow(bounds) && forall k :: 0 <= k < |obs| ==> obs[k] <= U64_MAX
    ensures Sum(counts) == |obs|
  {
    var last := |bounds| - 1;
    assert Sum(counts[..last + 1]) == CountLe(obs, bounds[last]);
    assert counts[..last + 1] == counts;
    CountAll(obs, U64_MAX);
  }

  /** `value` is the smallest finite bound that is at least `x`; beyond the finite bounds, the largest of them. */
  predicate ReportsFor(bounds: seq<nat>, x: nat, value: nat)
    requires HasOverflow(bounds)
  {
    var finite := bounds[..|bounds| - 1];
    if finite != [] && x <= finite[|finite| - 1] then
      value in finite && x <= value && forall k :: 0 <= k < |finite| && x <= finite[k] ==> value <= finite[k]
    else value == if finite == [] then 0 else finite[|finite| - 1]
  }

  lemma ReportedReports(bounds: seq<nat>, counts: seq<nat>, i: nat, x: nat)
    requires HasOverflow(bounds) && |counts| == |bounds| && i < |bounds|
    requires x <= bounds[i] && (i > 0 ==> bounds[i - 1] < x)
    ensures ReportsFor(bounds, x, Reported(Zip(bounds, counts), i))
  {
    var finite := bounds[..|bounds| - 1];
    var h := Zip(bounds, counts);
    assert h[i].bound == bounds[i] && (i > 0 ==> h[i - 1].bound == bounds[i - 1]);
    if i < |finite| {
      assert finite[i] == bounds[i] && bounds[i] < U64_MAX && finite[i] <= finite[|finite| - 1];
      forall k | 0 <= k < |finite| && x <= finite[k] ensures bounds[i] <= finite[k] {
        assert k >= i;
      }
    }
  }

  /**
   Quantiles are merged, not averaged. The value that `HistogramQuantile` returns for the merged
   histogram of any number of slices stands for the ceil(q * n)-th smallest of all n observations.
   */
  lemma MergedQuantileIsTrueQuantile(bounds: seq<nat>, counts: seq<seq<nat>>, obs: seq<seq<nat>>, q: Fraction,
                                     h: seq<Bucket>, value: nat) returns (x: nat)
    requires ValidFraction(q) && HasOverflow(bounds) && |counts| == |obs| > 0
    requires forall k :: 0 <= k < |counts| ==> Describes(bounds, counts[k], obs[k])
    requires forall k, j :: 0 <= k < |obs| && 0 <= j < |obs[k]| ==> obs[k][j] <= U64_MAX
    requires Bounds(h) == bounds && Counts(h) == MergeAll(counts) && IsQuantile(h, q, value)
    ensures Sum(MergeAll(counts)) == |Flatten(obs)|
    ensures Flatten(obs) == [] ==> value == 0
    ensures Flatten(obs) != [] ==> IsRanked(Flatten(obs), Rank(|Flatten(obs)|, q), x) && ReportsFor(bounds, x, value)
  {
    MergeAllDescribesAll(bounds, counts, obs);
    FlattenBounded(obs, U64_MAX);
    var merged, all := MergeAll(counts), Flatten(obs);
    DescribedTotal(bounds, merged, all);
    assert Zip(bounds, merged) == h;
    x := 0;
    if all != [] {
      var rank := Rank(|all|, q);
      var i: nat :| FirstReaching(merged, rank, i) && value == Reported(h, i);
      x := FindRanked(all, rank, bounds[i]);
      QuantileBucketHoldsRankedObservation(bounds, merged, all, rank, i, x);
      ReportedReports(bounds, merged, i, x);
    }
  }
}
