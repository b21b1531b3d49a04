/**
 The in-process aggregator against the list of results it accepted: its totals are the saturated sums
 of that list, and the list decides every answer, for every sequence of results and sweeps.
 */
module AggregatorAnswers {
  import opened Common
  import opened Histogram
  import opened RunRecord
  import opened RunOutcomes
  import opened RunAggregator
  import A = AggregationRefinement

  // ---- A run fed with results ------------------------------------------------------------------

  datatype Event = Deliver(x: Slice, now: nat) | Sweep(now: nat, timeout: nat)

  /** The state of one run, the results it accepted in order, and when the first and the last of them came. */
  datatype Fed = Fed(m: RunState, accepted: seq<Slice>, firstAt: nat, lastAt: nat)

  predicate Merged?(update: Update) {
    update.MemAccepted? || update.MemFinalized? || update.MemLateUpdate?
  }

  /** Results as validation leaves them: increasing bounds with one count each, an index within the run. */
  predicate WellFormed(x: Slice) {
    |x.bounds| == |x.counts| && StrictlyIncreasing(x.bounds) && x.index < x.meta.expected
  }

  function Step(f: Fed, e: Event): Fed
    requires e.Deliver? ==> WellFormed(e.x)
  {
    match e
    case Deliver(x, now) =>
      var (m, update) := AcceptSlice(f.m, x, now);
      if Merged?(update) then Fed(m, f.accepted + [x], if f.accepted == [] then now else f.firstAt, now) else f.(m := m)
    case Sweep(now, timeout) => f.(m := Swept(f.m, now, timeout))
  }

  ghost predicate Delivers(events: seq<Event>) {
    forall n :: 0 <= n < |events| && events[n].Deliver? ==> WellFormed(events[n].x)
  }

  function Feed(first: Slice, at: nat, events: seq<Event>): Fed
    requires Delivers(events)
  {
    if events == [] then Fed(FromFirst(first, at), [], at, at)
    else
      assert Delivers(events[..|events| - 1]);
      Step(Feed(first, at, events[..|events| - 1]), events[|events| - 1])
  }

  // ---- What the state holds ----------------------------------------------------------------------

  /** The count of the bucket with the given bound, zero if there is none. */
  function CountAt(x: Slice, bound: nat): nat {
    if |x.bounds| == |x.counts| then Lookup(AddBuckets(map[], x.bounds, x.counts), bound) else 0
  }

  ghost predicate SharesKey(xs: seq<Slice>, x: Slice) {
    exists n :: 0 <= n < |xs| && xs[n].key == x.key
  }

  ghost predicate SharesIndex(xs: seq<Slice>, x: Slice) {
    exists n :: 0 <= n < |xs| && xs[n].index == x.index
  }

  /** All accepted histograms that are not empty have the bounds of `x`, or `x` has none. */
  ghost predicate SameBounds(xs: seq<Slice>, x: Slice) {
    x.bounds == [] || forall n :: 0 <= n < |xs| ==> xs[n].bounds == [] || xs[n].bounds == x.bounds
  }

  ghost predicate KeysHeld(m: RunState, xs: seq<Slice>) {
    && m.keys == (set n | 0 <= n < |xs| :: xs[n].key) && m.indexes == (set n | 0 <= n < |xs| :: xs[n].index)
    && |m.indexes| == |xs|
  }

  ghost predicate TotalsHeld(m: RunState, xs: seq<Slice>) {
    && m.total == Saturated(SumBy(xs, (y: Slice) => y.total))
    && m.success == Saturated(SumBy(xs, (y: Slice) => y.success))
    && m.failure == Saturated(SumBy(xs, (y: Slice) => y.failure))
    && (forall kind :: Count(m.errors, kind) == SumBy(xs, (y: Slice) => Count(y.errors, kind)))
    && (forall bound: nat :: Lookup(m.histogram, bound) == SumBy(xs, (y: Slice) => CountAt(y, bound)))
  }

  /** The bounds of the histogram are those of every accepted histogram that is not empty. */
  ghost predicate BoundsHeld(m: RunState, xs: seq<Slice>) {
    && (forall n :: 0 <= n < |xs| && xs[n].bounds != [] ==> Ascending(m.histogram.Keys) == xs[n].bounds)
    && ((forall n :: 0 <= n < |xs| ==> xs[n].bounds == []) ==> m.histogram == map[])
  }

  ghost predicate FedInv(f: Fed) {
    && KeysHeld(f.m, f.accepted) && TotalsHeld(f.m, f.accepted) && BoundsHeld(f.m, f.accepted)
    && (f.accepted != [] ==> f.m.firstAt == f.firstAt && f.m.lastAt == f.lastAt)
    && (forall n :: 0 <= n < |f.accepted| ==> WellFormed(f.accepted[n]) && f.accepted[n].meta == f.m.meta)
  }

  lemma SumByAfter(xs: seq<Slice>, x: Slice, f: Slice -> nat)
    ensures SumBy(xs + [x], f) == SumBy(xs, f) + f(x)
  {
    assert (xs + [x])[..|xs|] == xs;
  }

  lemma KeysAfter(m: RunState, xs: seq<Slice>, x: Slice, now: nat)
    requires KeysHeld(m, xs) && |x.bounds| == |x.counts| && x.key !in m.keys && x.index !in m.indexes
    ensures KeysHeld(MergedState(m, x, now), xs + [x])
  {
    var more := xs + [x];
    assert (set n | 0 <= n < |more| :: more[n].key) == (set n | 0 <= n < |xs| :: xs[n].key) + {x.key} by {
      assert forall n :: 0 <= n < |xs| ==> more[n] == xs[n];
      assert more[|xs|] == x;
    }
    assert (set n | 0 <= n < |more| :: more[n].index) == (set n | 0 <= n < |xs| :: xs[n].index) + {x.index} by {
      assert forall n :: 0 <= n < |xs| ==> more[n] == xs[n];
      assert more[|xs|] == x;
    }
  }

  lemma BucketsAdd(h: map<nat, nat>, x: Slice, bound: nat)
    requires WellFormed(x)
    ensures Lookup(AddBuckets(h, x.bounds, x.counts), bound) == Lookup(h, bound) + CountAt(x, bound)
  {
    A.AddBucketsAt(h, x.bounds, x.counts, AddBuckets(h, x.bounds, x.counts));
    A.AddBucketsAt(map[], x.bounds, x.counts, AddBuckets(map[], x.bounds, x.counts));
    if bound in x.bounds {
      var i :| 0 <= i < |x.bounds| && x.bounds[i] == bound;
      assert Lookup(AddBuckets(h, x.bounds, x.counts), x.bounds[i]) == Lookup(h, x.bounds[i]) + x.counts[i];
    }
  }

  lemma TotalsAfter(m: RunState, xs: seq<Slice>, x: Slice, now: nat)
    requires TotalsHeld(m, xs) && WellFormed(x)
    ensures TotalsHeld(MergedState(m, x, now), xs + [x])
  {
    forall bound: nat ensures Lookup(MergedState(m, x, now).histogram, bound) == SumBy(xs + [x], (y: Slice) => CountAt(y, bound)) {
      SumByAfter(xs, x, (y: Slice) => CountAt(y, bound));
      BucketsAdd(m.histogram, x, bound);
    }
    SumByAfter(xs, x, (y: Slice) => y.total);
    SumByAfter(xs, x, (y: Slice) => y.success);
    SumByAfter(xs, x, (y: Slice) => y.failure);
    forall kind ensures Count(MergedState(m, x, now).errors, kind) == SumBy(xs + [x], (y: Slice) => Count(y.errors, kind)) {
      SumByAfter(xs, x, (y: Slice) => Count(y.errors, kind));
    }
  }

  lemma {:induction false} AscendingIsSet(keys: set<nat>)
    ensures BoundSet(Ascending(keys)) == keys
    decreases |keys|
  {
    if keys != {} {
      var a := Ascending(keys);
      var rest := Ascending(keys - {a[0]});
      AscendingIsSet(keys - {a[0]});
      assert a == [a[0]] + rest;
      forall b ensures b in BoundSet(a) <==> b in keys {
        assert b in a <==> b == a[0] || b in rest;
        assert b in rest <==> b in BoundSet(rest);
      }
    }
  }

  /** A mergeable histogram keeps the bounds, or brings them when there were none. */
  lemma BoundsMerge(m: RunState, x: Slice, now: nat)
    requires WellFormed(x) && Mergeable(m, x)
    ensures var h := MergedState(m, x, now).histogram;
            if x.bounds == [] then h == m.histogram else Ascending(h.Keys) == x.bounds
    ensures m.histogram != map[] ==> Ascending(MergedState(m, x, now).histogram.Keys) == Ascending(m.histogram.Keys)
  {
    var h := MergedState(m, x, now).histogram;
    if x.bounds != [] {
      A.AddBucketsAt(m.histogram, x.bounds, x.counts, h);
      AscendingBounds(x.bounds);
      if m.histogram == map[] {
        assert h.Keys == BoundSet(x.bounds);
      } else {
        AscendingIsSet(m.histogram.Keys);
        assert h.Keys == m.histogram.Keys;
      }
    }
  }

  lemma BoundsAfter(m: RunState, xs: seq<Slice>, x: Slice, now: nat)
    requires BoundsHeld(m, xs) && WellFormed(x) && Mergeable(m, x)
    ensures BoundsHeld(MergedState(m, x, now), xs + [x])
  {
    var m1, more := MergedState(m, x, now), xs + [x];
    BoundsMerge(m, x, now);
    assert more[|xs|] == x && forall n :: 0 <= n < |xs| ==> more[n] == xs[n];
    forall n | 0 <= n < |more| && more[n].bounds != [] ensures Ascending(m1.histogram.Keys) == more[n].bounds {
      if n < |xs| {
        assert xs[n].bounds != [] && Ascending(m.histogram.Keys) == xs[n].bounds;
        assert m.histogram != map[];
      }
    }
    if forall n :: 0 <= n < |more| ==> more[n].bounds == [] {
      assert x.bounds == [];
      forall n | 0 <= n < |xs| ensures xs[n].bounds == [] {
        assert more[n].bounds == [];
      }
    }
  }

  /** Whether a result can be merged is decided by the bounds accepted so far. */
  lemma MergeableIsSameBounds(m: RunState, xs: seq<Slice>, x: Slice)
    requires BoundsHeld(m, xs) && WellFormed(x)
    ensures Mergeable(m, x) <==> SameBounds(xs, x)
  {
    if x.bounds != [] && !(forall n :: 0 <= n < |xs| ==> xs[n].bounds == []) {
      var n :| 0 <= n < |xs| && xs[n].bounds != [];
      assert Ascending(m.histogram.Keys) == xs[n].bounds;
      assert m.histogram != map[];
      if Mergeable(m, x) {
        forall k | 0 <= k < |xs| ensures xs[k].bounds == [] || xs[k].bounds == x.bounds {
        }
      }
    }
  }

  lemma IdentitiesAreHeld(m: RunState, xs: seq<Slice>, x: Slice)
    requires KeysHeld(m, xs)
    ensures x.key in m.keys <==> SharesKey(xs, x)
    ensures x.index in m.indexes <==> SharesIndex(xs, x)
  {
  }

  // ---- The answers -------------------------------------------------------------------------------

  /** What kind of answer a result gets from the results accepted so far. */
  datatype Answer = Refused | Repeated | Taken | Completing

  ghost function AnswerTo(meta: Meta, xs: seq<Slice>, x: Slice): Answer {
    if x.meta != meta then Refused
    else if SharesKey(xs, x) || SharesIndex(xs, x) then Repeated
    else if !SameBounds(xs, x) then Refused
    else if |xs| + 1 == meta.expected then Completing
    else Taken
  }

  /** The update that stands for an answer; a completing result carries the summary of everything accepted. */
  ghost predicate Stands(answer: Answer, late: bool, m': RunState, now: nat, update: Update) {
    match answer
    case Refused => update.MemInconsistent?
    case Repeated => update.MemDuplicate?
    case Taken => update.MemAccepted?
    case Completing => update == if late then MemLateUpdate(StateSummary(m', Complete, now)) else MemFinalized(StateSummary(m', Complete, now))
  }

  lemma ResultIsAnswered(f: Fed, x: Slice, now: nat)
    requires FedInv(f) && WellFormed(x)
    ensures var (m', update) := AcceptSlice(f.m, x, now);
            && Stands(AnswerTo(f.m.meta, f.accepted, x), f.m.finalized.Some?, m', now, update)
            && (Merged?(update) <==> AnswerTo(f.m.meta, f.accepted, x).Taken? || AnswerTo(f.m.meta, f.accepted, x).Completing?)
            && (!Merged?(update) ==> m' == f.m)
            && (Merged?(update) ==> m' == MergedState(f.m, x, now).(finalized := m'.finalized))
            && m'.finalized == if AnswerTo(f.m.meta, f.accepted, x).Completing? then Some(Complete) else f.m.finalized
  {
    IdentitiesAreHeld(f.m, f.accepted, x);
    MergeableIsSameBounds(f.m, f.accepted, x);
    if x.index !in f.m.indexes {
      assert |f.m.indexes + {x.index}| == |f.m.indexes| + 1;
    }
  }

  lemma AcceptedAreWellFormed(f: Fed, x: Slice)
    requires FedInv(f) && WellFormed(x) && x.meta == f.m.meta
    ensures var more := f.accepted + [x]; forall n :: 0 <= n < |more| ==> WellFormed(more[n]) && more[n].meta == f.m.meta
  {
  }

  lemma MergeKeepsFed(f: Fed, x: Slice, now: nat, m': RunState)
    requires FedInv(f) && WellFormed(x) && x.meta == f.m.meta && x.key !in f.m.keys && x.index !in f.m.indexes && Mergeable(f.m, x)
    requires m' == MergedState(f.m, x, now).(finalized := m'.finalized) && (f.accepted == [] ==> f.m.firstAt == now)
    ensures FedInv(Fed(m', f.accepted + [x], if f.accepted == [] then now else f.firstAt, now))
  {
    KeysAfter(f.m, f.accepted, x, now);
    TotalsAfter(f.m, f.accepted, x, now);
    BoundsAfter(f.m, f.accepted, x, now);
    AcceptedAreWellFormed(f, x);
  }

  lemma StepKeepsFed(f: Fed, e: Event)
    requires FedInv(f) && (e.Deliver? ==> WellFormed(e.x))
    requires f.accepted == [] && e.Deliver? ==> f.m.firstAt == e.now
    ensures FedInv(Step(f, e))
  {
    if e.Deliver? {
      ResultIsAnswered(f, e.x, e.now);
      var (m', update) := AcceptSlice(f.m, e.x, e.now);
      if Merged?(update) {
        IdentitiesAreHeld(f.m, f.accepted, e.x);
        MergeableIsSameBounds(f.m, f.accepted, e.x);
        MergeKeepsFed(f, e.x, e.now, m');
      }
    }
  }

  /** The first event of a run delivers the result that opened it. */
  ghost predicate Opens(first: Slice, at: nat, events: seq<Event>) {
    Delivers(events) && (events != [] ==> events[0] == Deliver(first, at))
  }

  lemma {:induction false} FeedKeepsInv(first: Slice, at: nat, events: seq<Event>)
    requires Opens(first, at, events) && WellFormed(first)
    ensures FedInv(Feed(first, at, events)) && Feed(first, at, events).m.meta == first.meta
    ensures events != [] ==> Feed(first, at, events).accepted != []
  {
    if events != [] {
      var init, e := events[..|events| - 1], events[|events| - 1];
      FeedKeepsInv(first, at, init);
      var f := Feed(first, at, init);
      if init == [] {
        assert f == Fed(FromFirst(first, at), [], at, at);
        ResultIsAnswered(f, first, at);
      }
      StepKeepsFed(f, e);
    }
  }

  /**
   Whatever results and sweeps came before, a result is refused exactly when its metadata or bounds
   differ from the run's, repeated exactly when an accepted result has its execution key or its index,
   and otherwise merged; the result that brings the last slice completes the run, late if it was
   finalized before.
   */
  lemma AggregatorAnswersByHistory(first: Slice, at: nat, events: seq<Event>, x: Slice, now: nat)
    requires Opens(first, at, events) && WellFormed(first) && WellFormed(x)
    ensures var f := Feed(first, at, events);
            var (m', update) := AcceptSlice(f.m, x, now);
            && Stands(AnswerTo(first.meta, f.accepted, x), f.m.finalized.Some?, m', now, update)
            && (AnswerTo(first.meta, f.accepted, x).Refused? || AnswerTo(first.meta, f.accepted, x).Repeated? ==> m' == f.m)
  {
    FeedKeepsInv(first, at, events);
    ResultIsAnswered(Feed(first, at, events), x, now);
  }

  /** And its totals are the saturated sums of the accepted results, from the first to the last of them. */
  lemma AggregatorHoldsTheSum(first: Slice, at: nat, events: seq<Event>)
    requires Opens(first, at, events) && WellFormed(first) && events != []
    ensures var f := Feed(first, at, events); TotalsHeld(f.m, f.accepted) && f.m.firstAt == f.firstAt && f.m.lastAt == f.lastAt
  {
    FeedKeepsInv(first, at, events);
  }

  // ---- The table ---------------------------------------------------------------------------------

  /** Ingestion touches only the run it names, and refuses only a new run that would be one too many. */
  lemma IngestTouchesOneRun(runs: map<string, RunState>, maxRuns: nat, x: Slice, now: nat, other: string)
    requires |x.bounds| == |x.counts| && other != x.meta.run
    ensures var (runs', update) := TableIngest(runs, maxRuns, x, now);
            && (update.MemCapacity? <==> x.meta.run !in runs && |runs| >= maxRuns)
            && (other in runs' <==> other in runs) && (other in runs ==> runs'[other] == runs[other])
            && (update.MemCapacity? ==> runs' == runs)
            && (!update.MemCapacity? ==>
                  && x.meta.run in runs'
                  && (runs'[x.meta.run], update) == AcceptSlice(if x.meta.run in runs then runs[x.meta.run] else FromFirst(x, now), x, now))
  {
  }
}
