/** The in-process run aggregator: the same aggregation rules over an in-memory table of runs. */
module RunAggregator {
  import opened Common
  import opened Histogram
  import opened RunRecord

  datatype RunState = RunState(
    meta: Meta, keys: set<string>, indexes: set<nat>,
    total: nat, success: nat, failure: nat,
    histogram: map<nat, nat>, errors: map<string, nat>,
    firstAt: nat, lastAt: nat, finalized: Option<Status>)

  datatype Update =
    | MemAccepted | MemDuplicate | MemFinalized(summary: Summary) | MemLateUpdate(summary: Summary)
    | MemCapacity | MemInconsistent

  function Saturated(n: nat): nat {
    if n > U64_MAX then U64_MAX else n
  }

  // ---- The ordered histogram -----------------------------------------------------------------

  lemma {:induction false} LeastExists(keys: set<nat>) returns (least: nat)
    requires keys != {}
    ensures least in keys && forall k :: k in keys ==> least <= k
    decreases |keys|
  {
    var k :| k in keys;
    if keys == {k} {
      return k;
    }
    assert keys - {k} != {} by {
      assert keys == (keys - {k}) + {k};
    }
    var rest := LeastExists(keys - {k});
    least := if rest < k then rest else k;
  }

  /** The keys of an ordered map, ascending. */
  function Ascending(keys: set<nat>): seq<nat>
    decreases |keys|
  {
    if keys == {} then []
    else
      ghost var least := LeastOf(keys);
      var k :| k in keys && forall j :: j in keys ==> k <= j;
      [k] + Ascending(keys - {k})
  }

  ghost function LeastOf(keys: set<nat>): (least: nat)
    requires keys != {}
    ensures least in keys && forall k :: k in keys ==> least <= k
  {
    assert exists k :: k in keys && forall j :: j in keys ==> k <= j by {
      var k := LeastExists(keys);
    }
    var k :| k in keys && forall j :: j in keys ==> k <= j;
    k
  }

  function BoundSet(bounds: seq<nat>): set<nat> {
    set b | b in bounds
  }

  /** Strictly increasing bounds are what iterating their ordered map gives back. */
  lemma {:induction false} AscendingBounds(bounds: seq<nat>)
    requires StrictlyIncreasing(bounds)
    ensures Ascending(BoundSet(bounds)) == bounds
  {
    if bounds != [] {
      var keys := BoundSet(bounds);
      assert bounds[0] in keys;
      assert forall j :: j in keys ==> bounds[0] <= j;
      assert BoundSet(bounds[1..]) == keys - {bounds[0]} by {
        forall b ensures b in BoundSet(bounds[1..]) <==> b in keys - {bounds[0]} {
          if b in bounds && b != bounds[0] {
            var i :| 0 <= i < |bounds| && bounds[i] == b;
            assert bounds[1..][i - 1] == b;
          }
        }
      }
      AscendingBounds(bounds[1..]);
    }
  }

  function Lookup(h: map<nat, nat>, bound: nat): nat {
    if bound in h then h[bound] else 0
  }

  /** `entry(bound).or_insert(0) += count`, bucket by bucket. */
  function AddBuckets(h: map<nat, nat>, bounds: seq<nat>, counts: seq<nat>): map<nat, nat>
    requires |bounds| == |counts|
  {
    if bounds == [] then h
    else
      var n := |bounds| - 1;
      var rest := AddBuckets(h, bounds[..n], counts[..n]);
      rest[bounds[n] := Lookup(rest, bounds[n]) + counts[n]]
  }

  function SortedBuckets(h: map<nat, nat>): seq<Bucket> {
    var keys := Ascending(h.Keys);
    seq(|keys|, i requires 0 <= i < |keys| => Bucket(keys[i], Lookup(h, keys[i])))
  }

  // ---- One run -------------------------------------------------------------------------------

  function FromFirst(x: Slice, now: nat): RunState {
    RunState(x.meta, {}, {}, 0, 0, 0, map[], map[], now, now, None)
  }

  function MergedState(m: RunState, x: Slice, now: nat): RunState
    requires |x.bounds| == |x.counts|
  {
    m.(keys := m.keys + {x.key}, indexes := m.indexes + {x.index},
       total := Saturated(m.total + x.total), success := Saturated(m.success + x.success),
       failure := Saturated(m.failure + x.failure),
       histogram := AddBuckets(m.histogram, x.bounds, x.counts), errors := AddErrors(m.errors, x.errors),
       lastAt := now)
  }

  function StateSummary(m: RunState, status: Status, now: nat): Summary {
    Summary(m.meta, status, |m.indexes|, Upto(m.meta.expected) - m.indexes,
            m.total, m.success, m.failure, SortedBuckets(m.histogram), m.errors, m.firstAt, now)
  }

  predicate Mergeable(m: RunState, x: Slice) {
    m.histogram == map[] || x.bounds == [] || Ascending(m.histogram.Keys) == x.bounds
  }

  function AcceptSlice(m: RunState, x: Slice, now: nat): (RunState, Update)
    requires |x.bounds| == |x.counts|
  {
    if m.meta != x.meta then (m, MemInconsistent)
    else if x.key in m.keys || x.index in m.indexes then (m, MemDuplicate)
    else if !Mergeable(m, x) then (m, MemInconsistent)
    else
      var m1 := MergedState(m, x, now);
      if |m1.indexes| == m1.meta.expected then
        var summary := StateSummary(m1, Complete, now);
        (m1.(finalized := Some(Complete)), if m.finalized.Some? then MemLateUpdate(summary) else MemFinalized(summary))
      else (m1, MemAccepted)
  }

  predicate Overdue(m: RunState, now: nat, timeout: nat) {
    m.finalized.None? && m.firstAt + timeout <= Max(now, m.firstAt)
  }

  function Swept(m: RunState, now: nat, timeout: nat): RunState {
    if Overdue(m, now, timeout) then m.(finalized := Some(TimedOut)) else m
  }

  // ---- The table -----------------------------------------------------------------------------

  function TableIngest(runs: map<string, RunState>, maxRuns: nat, x: Slice, now: nat): (map<string, RunState>, Update)
    requires |x.bounds| == |x.counts|
  {
    var run := x.meta.run;
    if run !in runs && |runs| >= maxRuns then (runs, MemCapacity)
    else
      var (m, update) := AcceptSlice(if run in runs then runs[run] else FromFirst(x, now), x, now);
      (runs[run := m], update)
  }

  method MergeBuckets(h: map<nat, nat>, bounds: seq<nat>, counts: seq<nat>) returns (r: map<nat, nat>)
    requires |bounds| == |counts|
    ensures r == AddBuckets(h, bounds, counts)
  {
    r := h;
    for i := 0 to |bounds|
      invariant r == AddBuckets(h, bounds[..i], counts[..i])
    {
      assert bounds[..i + 1][..i] == bounds[..i] && counts[..i + 1][..i] == counts[..i];
      r := r[bounds[i] := Lookup(r, bounds[i]) + counts[i]];
    }
    assert bounds[..|bounds|] == bounds && counts[..|counts|] == counts;
  }

  method MergeCounts(m: RunState, x: Slice, now: nat) returns (r: RunState)
    requires |x.bounds| == |x.counts|
    ensures r == MergedState(m, x, now)
  {
    var histogram := MergeBuckets(m.histogram, x.bounds, x.counts);
    var errors := IncrementErrors(m.errors, x.errors);
    r := m.(keys := m.keys + {x.key}, indexes := m.indexes + {x.index},
            total := Saturated(m.total + x.total), success := Saturated(m.success + x.success),
            failure := Saturated(m.failure + x.failure),
            histogram := histogram, errors := errors, lastAt := now);
  }

  /** Compatibility, duplicate and bounds checks, then the merge itself. */
  method MergeSlice(m: RunState, x: Slice, now: nat) returns (r: RunState, update: Update)
    requires |x.bounds| == |x.counts|
    ensures (r, update) == AcceptSlice(m, x, now)
  {
    r := m;
    if m.meta != x.meta {
      return r, MemInconsistent;
    }
    if x.key in m.keys || x.index in m.indexes {
      return r, MemDuplicate;
    }
    if !Mergeable(m, x) {
      return r, MemInconsistent;
    }
    r := MergeCounts(m, x, now);
    update := MemAccepted;
    if |r.indexes| == r.meta.expected {
      var summary := StateSummary(r, Complete, now);
      update := if m.finalized.Some? then MemLateUpdate(summary) else MemFinalized(summary);
      r := r.(finalized := Some(Complete));
    }
  }

  class Aggregator {
    var runs: map<string, RunState>
    const maxRuns: nat

    constructor (maxRuns: nat)
      requires maxRuns > 0
      ensures runs == map[] && this.maxRuns == maxRuns
    {
      this.runs := map[];
      this.maxRuns := maxRuns;
    }

    method Ingest(x: Slice, now: nat) returns (update: Update)
      requires |x.bounds| == |x.counts|
      modifies this`runs
      ensures (runs, update) == TableIngest(old(runs), maxRuns, x, now)
    {
      var run := x.meta.run;
      if run !in runs && |runs| >= maxRuns {
        return MemCapacity;
      }
      var m := if run in runs then runs[run] else FromFirst(x, now);
      m, update := MergeSlice(m, x, now);
      runs := runs[run := m];
    }

    /** Marks every overdue run timed out and returns the summaries of exactly those runs. */
    method FinalizeExpired(now: nat, timeout: nat) returns (summaries: map<string, Summary>)
      modifies this`runs
      ensures runs == map id | id in old(runs) :: Swept(old(runs)[id], now, timeout)
      ensures summaries.Keys == set id | id in old(runs) && Overdue(old(runs)[id], now, timeout)
      ensures forall id :: id in summaries ==> summaries[id] == StateSummary(old(runs)[id], TimedOut, now)
    {
      summaries := map[];
      ghost var before := runs;
      var left := runs.Keys;
      while left != {}
        invariant left <= before.Keys == runs.Keys
        invariant forall id :: id in before ==> runs[id] == if id in left then before[id] else Swept(before[id], now, timeout)
        invariant forall id :: id in summaries <==> id in before && id !in left && Overdue(before[id], now, timeout)
        invariant forall id :: id in summaries ==> summaries[id] == StateSummary(before[id], TimedOut, now)
      {
        var id :| id in left;
        var m := runs[id];
        if m.finalized.None? && m.firstAt + timeout <= Max(now, m.firstAt) {
          runs := runs[id := m.(finalized := Some(TimedOut))];
          summaries := summaries[id := StateSummary(m, TimedOut, now)];
        }
        left := left - {id};
      }
    }
  }
}
