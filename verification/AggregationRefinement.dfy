/**
 The durable scripts refine the in-process aggregator: on runs both are meant for, they give the
 same answers and the same summaries.
 */
module AggregationRefinement {
  import opened Common
  import opened Histogram
  import opened RunRecord
  import opened RunLaws
  import opened RunOutcomes
  import opened RunAggregator

  // ---- Histograms as ordered maps ------------------------------------------------------------

  lemma LastBound(bounds: seq<nat>)
    requires bounds != [] && StrictlyIncreasing(bounds)
    ensures var n := |bounds| - 1; bounds[n] !in bounds[..n] && BoundSet(bounds) == BoundSet(bounds[..n]) + {bounds[n]}
  {
    var n := |bounds| - 1;
    assert bounds == bounds[..n] + [bounds[n]];
  }

  /** `r` is `h` with the counts added at the bounds and nothing else changed. */
  ghost predicate Added(h: map<nat, nat>, bounds: seq<nat>, counts: seq<nat>, r: map<nat, nat>)
    requires |bounds| == |counts|
  {
    && r.Keys == h.Keys + BoundSet(bounds)
    && (forall i :: 0 <= i < |bounds| ==> Lookup(r, bounds[i]) == Lookup(h, bounds[i]) + counts[i])
    && (forall b :: b !in bounds ==> Lookup(r, b) == Lookup(h, b))
  }

  lemma AddedOneMore(h: map<nat, nat>, bounds: seq<nat>, counts: seq<nat>, rest: map<nat, nat>)
    requires |bounds| == |counts| > 0 && StrictlyIncreasing(bounds)
    requires var n := |bounds| - 1; Added(h, bounds[..n], counts[..n], rest)
    ensures var n := |bounds| - 1; Added(h, bounds, counts, rest[bounds[n] := Lookup(rest, bounds[n]) + counts[n]])
  {
    var n := |bounds| - 1;
    LastBound(bounds);
    var r := rest[bounds[n] := Lookup(rest, bounds[n]) + counts[n]];
    forall i | 0 <= i < |bounds| ensures Lookup(r, bounds[i]) == Lookup(h, bounds[i]) + counts[i] {
      if i < n {
        assert bounds[..n][i] == bounds[i] && counts[..n][i] == counts[i];
      }
    }
    forall b | b !in bounds ensures Lookup(r, b) == Lookup(h, b) {
      assert b !in bounds[..n];
    }
  }

  /** Adding buckets with increasing bounds touches exactly those bounds, each once. */
  lemma {:induction false} AddBucketsAt(h: map<nat, nat>, bounds: seq<nat>, counts: seq<nat>, r: map<nat, nat>)
    requires |bounds| == |counts| && StrictlyIncreasing(bounds) && r == AddBuckets(h, bounds, counts)
    ensures Added(h, bounds, counts, r)
    decreases |bounds|
  {
    if bounds == [] {
      assert r.Keys == h.Keys;
    } else {
      var n := |bounds| - 1;
      var rest := AddBuckets(h, bounds[..n], counts[..n]);
      AddBucketsAt(h, bounds[..n], counts[..n], rest);
      AddedOneMore(h, bounds, counts, rest);
    }
  }

  /** The ordered map a record's bounds and counters stand for. */
  function AsMap(bounds: seq<nat>, counts: seq<nat>): map<nat, nat>
    requires |bounds| == |counts|
  {
    AddBuckets(map[], bounds, counts)
  }

  lemma SameLookups(g: map<nat, nat>, h: map<nat, nat>)
    requires g.Keys == h.Keys && forall b :: b in g ==> Lookup(g, b) == Lookup(h, b)
    ensures g == h
  {
    forall b | b in g ensures g[b] == h[b] {
      assert Lookup(g, b) == Lookup(h, b);
    }
  }

  lemma AsMapAdds(bounds: seq<nat>, a: seq<nat>, b: seq<nat>)
    requires |bounds| == |a| == |b| && StrictlyIncreasing(bounds)
    ensures |AddCounts(a, b)| == |bounds|
    ensures AddBuckets(AsMap(bounds, a), bounds, b) == AsMap(bounds, AddCounts(a, b))
  {
    var c := AddCounts(a, b);
    var g, h := AddBuckets(AsMap(bounds, a), bounds, b), AsMap(bounds, c);
    AddBucketsAt(map[], bounds, a, AsMap(bounds, a));
    AddBucketsAt(AsMap(bounds, a), bounds, b, g);
    AddBucketsAt(map[], bounds, c, h);
    forall k | k in g ensures Lookup(g, k) == Lookup(h, k) {
      var i :| 0 <= i < |bounds| && bounds[i] == k;
      assert At(c, i) == At(a, i) + At(b, i);
      assert Lookup(g, bounds[i]) == Lookup(h, bounds[i]);
    }
    SameLookups(g, h);
  }

  lemma AsMapSorts(bounds: seq<nat>, counts: seq<nat>)
    requires |bounds| == |counts| && StrictlyIncreasing(bounds)
    ensures Ascending(AsMap(bounds, counts).Keys) == bounds
    ensures SortedBuckets(AsMap(bounds, counts)) == Zip(bounds, counts)
  {
    AddBucketsAt(map[], bounds, counts, AsMap(bounds, counts));
    AscendingBounds(bounds);
    assert AsMap(bounds, counts).Keys == BoundSet(bounds);
  }

  // ---- The relation --------------------------------------------------------------------------

  predicate SameTotals(t: Tally, m: RunState) {
    && m.total == t.total && m.success == t.success && m.failure == t.failure && m.errors == t.errors
    && m.keys == t.executions.Keys && m.indexes == t.slices.Keys
  }

  /** A durable record and an in-process state of the same, unregistered and uncancelled run. */
  ghost predicate Rel(cfg: Config, r: Run, m: RunState) {
    && m.meta == r.meta && SameTotals(r.tally, m)
    && r.bounds != [] && |r.tally.latency| == |r.bounds| && StrictlyIncreasing(r.bounds)
    && m.histogram == AsMap(r.bounds, r.tally.latency)
    && 0 < r.firstAt == m.firstAt && m.lastAt == r.lastAt
    && r.deadlineAt == r.firstAt + cfg.partialTimeout
    && !r.status.Cancelled? && m.finalized == (if r.status.Open? then None else Some(r.status))
  }

  ghost predicate Related(cfg: Config, s: Slot, runs: map<string, RunState>, id: string) {
    && (s.run.None? <==> id !in runs)
    && (s.run.Some? ==> s.run.value.meta.run == id && Rel(cfg, s.run.value, runs[id]))
  }

  /** Results both aggregators are specified for: consistent identities, a shared histogram, and room for a new slice. */
  ghost predicate Regular(cfg: Config, s: Slot, x: Slice, now: nat, others: nat) {
    && ValidSlice(x) && x.bounds != [] && 0 < now && now + cfg.partialTimeout <= MAX_EXACT
    && (s.run.None? ==> others + (if Pruned(s, now).active.Some? then 1 else 0) < cfg.maxActive && NewKinds(x.errors.Keys, {}) <= cfg.maxKinds && Fits(EMPTY_TALLY, x))
    && (s.run.Some? ==>
          var r := s.run.value;
          && (x.meta == r.meta ==> x.bounds == r.bounds)
          && (x.index in r.tally.slices ==> r.tally.slices[x.index] == x.key)
          && (x.key in r.tally.executions ==> r.tally.executions[x.key] == x.index)
          && (Screen(r, x).Merge? ==>
                r.lastAt <= now && Fits(r.tally, x) && r.tally.kinds + NewKinds(x.errors.Keys, r.tally.errors.Keys) <= cfg.maxKinds))
  }

  /** The in-process answer that corresponds to a durable reply. */
  function AnswerOf(s: Slot, reply: IngestReply): Option<Update> {
    match reply
    case Accepted => Some(MemAccepted)
    case LateAccepted => Some(MemAccepted)
    case Duplicate => Some(MemDuplicate)
    case Inconsistent => Some(MemInconsistent)
    case Completed =>
      if s.run.Some? && SummaryOf(s.run.value).Ok? then Some(MemFinalized(SummaryOf(s.run.value).value)) else None
    case LateCompleted =>
      if s.run.Some? && SummaryOf(s.run.value).Ok? then Some(MemLateUpdate(SummaryOf(s.run.value).value)) else None
    case _ => None
  }

  lemma SummariesAgree(cfg: Config, r: Run, m: RunState)
    requires Rel(cfg, r, m) && TallyInv(r.meta, r.bounds, r.tally) && ControlInv(r)
    requires !r.status.Open? && r.tally.received > 0
    ensures SummaryOf(r) == Ok(StateSummary(m, r.status, r.finalizedAt))
  {
    FinalizedRecordDecodes(r);
    AsMapSorts(r.bounds, r.tally.latency);
    assert r.tally.latency[..|r.bounds|] == r.tally.latency;
    assert |r.tally.slices| == |r.tally.slices.Keys|;
  }

  // ---- One delivery --------------------------------------------------------------------------

  lemma TotalsMerge(t: Tally, m: RunState, x: Slice, now: nat)
    requires SameTotals(t, m) && Fits(t, x) && |x.bounds| == |x.counts|
    ensures SameTotals(Merged(t, x), MergedState(m, x, now))
  {
    assert MAX_EXACT <= U64_MAX;
    assert Merged(t, x).executions.Keys == t.executions.Keys + {x.key};
    assert Merged(t, x).slices.Keys == t.slices.Keys + {x.index};
  }

  lemma MergeRelates(cfg: Config, r: Run, m: RunState, x: Slice, now: nat)
    requires Rel(cfg, r, m) && Fits(r.tally, x) && x.bounds == r.bounds && |x.counts| == |x.bounds| && r.lastAt <= now
    ensures Rel(cfg, WithSlice(r, x, now), MergedState(m, x, now))
  {
    TotalsMerge(r.tally, m, x, now);
    AsMapAdds(r.bounds, r.tally.latency, x.counts);
  }

  lemma FirstMergeRelates(cfg: Config, x: Slice, now: nat)
    requires Fits(EMPTY_TALLY, x) && ValidSlice(x) && x.bounds != [] && 0 < now
    ensures Rel(cfg, WithSlice(NewRun(x.meta, x.bounds, now, now + cfg.partialTimeout), x, now),
                MergedState(FromFirst(x, now), x, now))
  {
    assert EMPTY_TALLY.errors.Keys == {} && EMPTY_TALLY.slices.Keys == {} && EMPTY_TALLY.executions.Keys == {};
    TotalsMerge(EMPTY_TALLY, FromFirst(x, now), x, now);
    AddNothing(x.counts);
  }

  /** How Absorb stores an affordable slice. */
  lemma AbsorbedRecord(cfg: Config, s: Slot, r: Run, x: Slice, now: nat)
    requires Fits(r.tally, x) && r.tally.kinds + NewKinds(x.errors.Keys, r.tally.errors.Keys) <= cfg.maxKinds
    ensures var (s', reply) := Absorb(s, r, x, now, cfg);
            var complete := r.tally.received + 1 == r.meta.expected;
            var merged := WithSlice(r, x, now);
            reply == MergeReply(r.status, complete) && s'.run == Some(StoredRecord(merged, complete, now))
  {
  }

  /** The in-process merge of a new, mergeable slice. */
  lemma AcceptedState(m: RunState, x: Slice, now: nat)
    requires |x.bounds| == |x.counts| && m.meta == x.meta && x.key !in m.keys && x.index !in m.indexes && Mergeable(m, x)
    ensures var (m', update) := AcceptSlice(m, x, now);
            var m1 := MergedState(m, x, now);
            var complete := |m.indexes| + 1 == m.meta.expected;
            && m' == (if complete then m1.(finalized := Some(Complete)) else m1)
            && update == (if !complete then MemAccepted
                          else if m.finalized.Some? then MemLateUpdate(StateSummary(m1, Complete, now))
                          else MemFinalized(StateSummary(m1, Complete, now)))
  {
    assert |m.indexes + {x.index}| == |m.indexes| + 1;
  }

  /** Completing both sides keeps the relation, and the summaries are the same. */
  lemma CompletionsAgree(cfg: Config, r: Run, m: RunState, now: nat, revision: nat, r': Run)
    requires Rel(cfg, r, m) && r' == r.(status := Complete, finalizedAt := now, revision := revision, pending := revision)
    requires TallyInv(r'.meta, r'.bounds, r'.tally) && ControlInv(r')
    ensures Rel(cfg, r', m.(finalized := Some(Complete))) && SummaryOf(r') == Ok(StateSummary(m, Complete, now))
  {
    var m' := m.(finalized := Some(Complete));
    assert Rel(cfg, r', m');
    SummariesAgree(cfg, r', m');
    assert StateSummary(m', Complete, now) == StateSummary(m, Complete, now);
  }

  /** The record a merge stores, and the in-process state and answer it leads to. */
  function StoredRecord(merged: Run, complete: bool, now: nat): Run {
    if complete then merged.(status := Complete, finalizedAt := now, revision := merged.revision + 1, pending := merged.revision + 1)
    else merged
  }

  function MergedAnswer(m1: RunState, late: bool, complete: bool, now: nat): (RunState, Update) {
    if !complete then (m1, MemAccepted)
    else (m1.(finalized := Some(Complete)),
          if late then MemLateUpdate(StateSummary(m1, Complete, now)) else MemFinalized(StateSummary(m1, Complete, now)))
  }

  lemma AnswersAgree(cfg: Config, merged: Run, m1: RunState, complete: bool, now: nat, s': Slot, reply: IngestReply)
    requires Rel(cfg, merged, m1) && s'.run == Some(StoredRecord(merged, complete, now)) && TallyOk(s') && ControlInv(s'.run.value)
    requires reply == MergeReply(merged.status, complete) && !merged.status.Complete?
    ensures var (m', update) := MergedAnswer(m1, !merged.status.Open?, complete, now);
            Rel(cfg, s'.run.value, m') && AnswerOf(s', reply) == Some(update)
  {
    if complete {
      CompletionsAgree(cfg, merged, m1, now, merged.revision + 1, s'.run.value);
    }
  }

  lemma AcceptIsMergedAnswer(r: Run, m: RunState, x: Slice, now: nat)
    requires |x.bounds| == |x.counts| && m.meta == x.meta == r.meta && x.key !in m.keys && x.index !in m.indexes && Mergeable(m, x)
    requires |m.indexes| == r.tally.received && m.finalized == (if r.status.Open? then None else Some(r.status))
    ensures AcceptSlice(m, x, now)
         == MergedAnswer(MergedState(m, x, now), !r.status.Open?, r.tally.received + 1 == r.meta.expected, now)
  {
    AcceptedState(m, x, now);
  }

  /** A merge on both sides keeps the relation and gives the same answer. */
  lemma MergesAgree(cfg: Config, s: Slot, r: Run, m: RunState, x: Slice, now: nat, s': Slot, reply: IngestReply)
    requires (s', reply) == Absorb(s, r, x, now, cfg) && TallyOk(s') && s'.run.Some? && ControlInv(s'.run.value)
    requires Fits(r.tally, x) && r.tally.kinds + NewKinds(x.errors.Keys, r.tally.errors.Keys) <= cfg.maxKinds
    requires r.meta == m.meta == x.meta && |x.bounds| == |x.counts|
    requires x.key !in m.keys && x.index !in m.indexes && Mergeable(m, x) && |m.indexes| == r.tally.received
    requires !r.status.Cancelled? && !r.status.Complete? && m.finalized == (if r.status.Open? then None else Some(r.status))
    requires Rel(cfg, WithSlice(r, x, now), MergedState(m, x, now))
    ensures var (m', update) := AcceptSlice(m, x, now);
            Rel(cfg, s'.run.value, m') && AnswerOf(s', reply) == Some(update)
  {
    AbsorbedRecord(cfg, s, r, x, now);
    AcceptIsMergedAnswer(r, m, x, now);
    AnswersAgree(cfg, WithSlice(r, x, now), MergedState(m, x, now), r.tally.received + 1 == r.meta.expected, now, s', reply);
  }

  lemma NextAgrees(cfg: Config, s: Slot, m: RunState, x: Slice, now: nat, others: nat)
    requires ValidConfig(cfg) && SlotInv(cfg, s, now) && Regular(cfg, s, x, now, others)
    requires s.run.Some? && Rel(cfg, s.run.value, m)
    ensures var (s', reply) := IngestStep(s, x, now, cfg, others);
            var (m', update) := AcceptSlice(m, x, now);
            s'.run.Some? && Rel(cfg, s'.run.value, m') && AnswerOf(s', reply) == Some(update)
  {
    var r := s.run.value;
    assert Noted(r, x) == r;
    assert |r.tally.slices| == |r.tally.slices.Keys|;
    BoundedIdentities(r.meta, r.bounds, r.tally);
    if Screen(r, x).Merge? {
      AsMapSorts(r.bounds, r.tally.latency);
      IngestKeepsTally(cfg, s, x, now, others);
      IngestKeepsControl(cfg, s, x, now, others);
      MergeRelates(cfg, r, m, x, now);
      var (s', reply) := IngestStep(s, x, now, cfg, others);
      AbsorbedRecord(cfg, Pruned(s, now).(run := Some(r)), r, x, now);
      MergesAgree(cfg, Pruned(s, now).(run := Some(r)), r, m, x, now, s', reply);
    } else {
      ScreenAgrees(cfg, s, m, x, now, others);
    }
  }

  /** Without a merge both sides answer alike and keep their state. */
  lemma ScreenAgrees(cfg: Config, s: Slot, m: RunState, x: Slice, now: nat, others: nat)
    requires s.run.Some? && Rel(cfg, s.run.value, m) && Regular(cfg, s, x, now, others)
    requires TallyOk(s) && ControlInv(s.run.value) && !Screen(s.run.value, x).Merge?
    ensures var (s', reply) := IngestStep(s, x, now, cfg, others);
            var (m', update) := AcceptSlice(m, x, now);
            s'.run == s.run && m' == m && AnswerOf(s', reply) == Some(update)
  {
    var r := s.run.value;
    assert Noted(r, x) == r;
    BoundedIdentities(r.meta, r.bounds, r.tally);
    if r.status.Complete? && x.meta == r.meta {
      assert x.index in Upto(r.meta.expected);
    }
  }

  lemma FirstIsAbsorbed(cfg: Config, s: Slot, x: Slice, now: nat, others: nat)
    requires s.run.None? && now + cfg.partialTimeout <= MAX_EXACT
    requires others + (if Pruned(s, now).active.Some? then 1 else 0) < cfg.maxActive
    ensures IngestStep(s, x, now, cfg, others)
         == Absorb(Pruned(s, now), NewRun(x.meta, x.bounds, now, now + cfg.partialTimeout), x, now, cfg)
  {
  }

  lemma FirstAgrees(cfg: Config, s: Slot, x: Slice, now: nat, others: nat)
    requires ValidConfig(cfg) && SlotInv(cfg, s, now) && Regular(cfg, s, x, now, others) && s.run.None?
    ensures var (s', reply) := IngestStep(s, x, now, cfg, others);
            var (m', update) := AcceptSlice(FromFirst(x, now), x, now);
            s'.run.Some? && Rel(cfg, s'.run.value, m') && AnswerOf(s', reply) == Some(update)
  {
    var first := NewRun(x.meta, x.bounds, now, now + cfg.partialTimeout);
    var (s', reply) := IngestStep(s, x, now, cfg, others);
    assert TallyOk(s') && ControlOk(cfg, s', now) by {
      IngestKeepsTally(cfg, s, x, now, others);
      IngestKeepsControl(cfg, s, x, now, others);
    }
    FirstIsAbsorbed(cfg, s, x, now, others);
    FirstFits(cfg, s, x, now, others);
    assert s'.run.Some? by {
      AbsorbedRecord(cfg, Pruned(s, now), first, x, now);
    }
    FirstMergeRelates(cfg, x, now);
    MergesAgree(cfg, Pruned(s, now), first, FromFirst(x, now), x, now, s', reply);
  }

  lemma FirstFits(cfg: Config, s: Slot, x: Slice, now: nat, others: nat)
    requires Regular(cfg, s, x, now, others) && s.run.None?
    ensures Fits(EMPTY_TALLY, x)
    ensures EMPTY_TALLY.kinds + NewKinds(x.errors.Keys, EMPTY_TALLY.errors.Keys) <= cfg.maxKinds
  {
    assert EMPTY_TALLY.errors.Keys == {};
  }

  /** Delivering a result to both aggregators: same answer, same summary, relation kept. */
  lemma DeliveryAgrees(cfg: Config, s: Slot, runs: map<string, RunState>, maxRuns: nat, x: Slice, now: nat, others: nat)
    requires ValidConfig(cfg) && SlotInv(cfg, s, now) && Related(cfg, s, runs, x.meta.run)
    requires Regular(cfg, s, x, now, others) && (x.meta.run !in runs ==> |runs| < maxRuns)
    ensures var (s', reply) := IngestStep(s, x, now, cfg, others);
            var (runs', update) := TableIngest(runs, maxRuns, x, now);
            Related(cfg, s', runs', x.meta.run) && AnswerOf(s', reply) == Some(update)
  {
    if s.run.Some? {
      NextAgrees(cfg, s, runs[x.meta.run], x, now, others);
      SameRunId(cfg, s, x, now, others);
    } else {
      FirstAgrees(cfg, s, x, now, others);
      SameRunId(cfg, s, x, now, others);
    }
  }

  lemma SameRunId(cfg: Config, s: Slot, x: Slice, now: nat, others: nat)
    requires IngestStep(s, x, now, cfg, others).0.run.Some?
    ensures IngestStep(s, x, now, cfg, others).0.run.value.meta == if s.run.Some? then s.run.value.meta else x.meta
  {
  }

  // ---- Deadlines -----------------------------------------------------------------------------

  /** The deadline sweep marks the run on both sides or on neither, with the same summary. */
  lemma SweepAgrees(cfg: Config, s: Slot, runs: map<string, RunState>, id: string, now: nat)
    requires ValidConfig(cfg) && SlotInv(cfg, s, now) && Related(cfg, s, runs, id) && s.run.Some?
    requires now + cfg.retention <= MAX_EXACT && s.run.value.tally.received > 0
    ensures var (s', reply) := ExpireStep(s, now, cfg);
            var m := runs[id];
            && s'.run.Some? && Rel(cfg, s'.run.value, Swept(m, now, cfg.partialTimeout))
            && (reply.MarkedTimedOut? <==> Overdue(m, now, cfg.partialTimeout))
            && (reply.MarkedTimedOut? ==> SummaryOf(s'.run.value) == Ok(StateSummary(m, TimedOut, now)))
  {
    var (s', reply) := ExpireStep(s, now, cfg);
    var w := World(s, now, []);
    FinalizationKeepsControl(cfg, w, Expire);
    if reply.MarkedTimedOut? {
      SummariesAgree(cfg, s'.run.value, Swept(runs[id], now, cfg.partialTimeout));
    }
  }

  // ---- Whole histories -----------------------------------------------------------------------

  datatype Event = Deliver(x: Slice, others: nat) | Sweep | AcknowledgeRevision(revision: nat) | CleanUp | Wait(elapsed: nat)

  datatype Pair = Pair(s: Slot, runs: map<string, RunState>, now: nat)

  ghost predicate Admissible(cfg: Config, p: Pair, id: string, maxRuns: nat, e: Event) {
    && Evicted(p.s, p.now) == p.s && p.now + cfg.retention <= MAX_EXACT
    && (e.Deliver? ==> e.x.meta.run == id && Regular(cfg, p.s, e.x, p.now, e.others) && (id !in p.runs ==> |p.runs| < maxRuns))
  }

  ghost function DurableStep(cfg: Config, p: Pair, e: Event): Slot {
    match e
    case Deliver(x, others) => IngestStep(p.s, x, p.now, cfg, others).0
    case Sweep => ExpireStep(p.s, p.now, cfg).0
    case AcknowledgeRevision(revision) => AcknowledgeStep(p.s, revision, p.now, cfg).0
    case CleanUp => CleanStep(p.s)
    case Wait(_) => p.s
  }

  /** Acknowledgement and cleanup have no in-process counterpart. */
  function MemoryStep(cfg: Config, p: Pair, maxRuns: nat, e: Event): map<string, RunState>
    requires e.Deliver? ==> |e.x.bounds| == |e.x.counts|
  {
    match e
    case Deliver(x, _) => TableIngest(p.runs, maxRuns, x, p.now).0
    case Sweep => map id | id in p.runs :: Swept(p.runs[id], p.now, cfg.partialTimeout)
    case _ => p.runs
  }

  ghost predicate Next(cfg: Config, id: string, maxRuns: nat, p: Pair, e: Event, p': Pair) {
    && Admissible(cfg, p, id, maxRuns, e)
    && p' == Pair(DurableStep(cfg, p, e), MemoryStep(cfg, p, maxRuns, e), if e.Wait? then p.now + e.elapsed else p.now)
  }

  ghost predicate History(cfg: Config, id: string, maxRuns: nat, states: seq<Pair>, events: seq<Event>) {
    && |states| == |events| + 1 && states[0] == Pair(EMPTY_SLOT, map[], 0)
    && forall n :: 0 <= n < |events| ==> Next(cfg, id, maxRuns, states[n], events[n], states[n + 1])
  }

  ghost predicate PairInv(cfg: Config, id: string, p: Pair) {
    && SlotInv(cfg, p.s, p.now) && Related(cfg, p.s, p.runs, id)
    && (p.s.run.Some? ==> p.s.run.value.tally.received > 0)
  }

  lemma DeliverKeepsPair(cfg: Config, id: string, maxRuns: nat, p: Pair, e: Event, p': Pair)
    requires ValidConfig(cfg) && PairInv(cfg, id, p) && e.Deliver? && Next(cfg, id, maxRuns, p, e, p')
    ensures PairInv(cfg, id, p')
  {
    DeliveryAgrees(cfg, p.s, p.runs, maxRuns, e.x, p.now, e.others);
    IngestKeepsTally(cfg, p.s, e.x, p.now, e.others);
    IngestKeepsControl(cfg, p.s, e.x, p.now, e.others);
    ReceivedGrows(cfg, p.s, e.x, p.now, e.others);
  }

  lemma ReceivedGrows(cfg: Config, s: Slot, x: Slice, now: nat, others: nat)
    ensures var s' := IngestStep(s, x, now, cfg, others).0;
            s'.run.Some? ==> s'.run.value.tally.received >= if s.run.Some? then s.run.value.tally.received else 1
  {
    match s.run
    case None => AbsorbStores(cfg, Pruned(s, now), NewRun(x.meta, x.bounds, now, now + cfg.partialTimeout), x, now);
    case Some(r) => AbsorbStores(cfg, Pruned(s, now).(run := Some(Noted(r, x))), Noted(r, x), x, now);
  }

  lemma SweepKeepsPair(cfg: Config, id: string, maxRuns: nat, p: Pair, e: Event, p': Pair)
    requires ValidConfig(cfg) && PairInv(cfg, id, p) && e.Sweep? && Next(cfg, id, maxRuns, p, e, p')
    ensures PairInv(cfg, id, p')
  {
    var w := World(p.s, p.now, []);
    FinalizationKeepsControl(cfg, w, Expire);
    ApplyKeepsTally(cfg, w, Expire);
    if p.s.run.Some? {
      SweepAgrees(cfg, p.s, p.runs, id, p.now);
      OnlyIngestMerges(cfg, w, Expire);
    }
  }

  lemma PublicationKeepsPair(cfg: Config, id: string, maxRuns: nat, p: Pair, e: Event, p': Pair)
    requires ValidConfig(cfg) && PairInv(cfg, id, p) && !e.Deliver? && !e.Sweep? && Next(cfg, id, maxRuns, p, e, p')
    ensures PairInv(cfg, id, p')
  {
    var w := World(p.s, p.now, []);
    var op := if e.AcknowledgeRevision? then Acknowledge(e.revision) else if e.CleanUp? then Clean else Tick(e.elapsed);
    PublicationKeepsControl(cfg, w, op);
    ApplyKeepsTally(cfg, w, op);
    PublicationKeepsRelated(cfg, id, p, e);
  }

  lemma PublicationKeepsRelated(cfg: Config, id: string, p: Pair, e: Event)
    requires Related(cfg, p.s, p.runs, id) && !e.Deliver? && !e.Sweep?
    ensures var s' := DurableStep(cfg, p, e);
            Related(cfg, s', p.runs, id) && (s'.run.Some? ==> p.s.run.Some? && s'.run.value.tally == p.s.run.value.tally)
  {
  }

  /** Every history of a regular run keeps the durable record and the in-process state related. */
  lemma {:induction false} HistoryStaysRelated(cfg: Config, id: string, maxRuns: nat, states: seq<Pair>,
                                               events: seq<Event>, n: nat)
    requires ValidConfig(cfg) && History(cfg, id, maxRuns, states, events) && n < |states|
    ensures PairInv(cfg, id, states[n])
  {
    if n > 0 {
      HistoryStaysRelated(cfg, id, maxRuns, states, events, n - 1);
      var p, e, p' := states[n - 1], events[n - 1], states[n];
      if e.Deliver? {
        DeliverKeepsPair(cfg, id, maxRuns, p, e, p');
      } else if e.Sweep? {
        SweepKeepsPair(cfg, id, maxRuns, p, e, p');
      } else {
        PublicationKeepsPair(cfg, id, maxRuns, p, e, p');
      }
    }
  }

  /**
   The durable store refines the in-process aggregator: at every delivery of every history the two
   give the same answer, and whenever the run is finalized its durable summary is the in-process one.
   */
  lemma DurableStoreRefinesAggregator(cfg: Config, id: string, maxRuns: nat, states: seq<Pair>, events: seq<Event>,
                                      n: nat)
    requires ValidConfig(cfg) && History(cfg, id, maxRuns, states, events) && n < |events|
    ensures var p := states[n];
            && (events[n].Deliver? ==>
                  && |events[n].x.bounds| == |events[n].x.counts|
                  && var (s', reply) := IngestStep(p.s, events[n].x, p.now, cfg, events[n].others);
                  AnswerOf(s', reply) == Some(TableIngest(p.runs, maxRuns, events[n].x, p.now).1))
            && (p.s.run.Some? && !p.s.run.value.status.Open? ==>
                  && id in p.runs
                  && SummaryOf(p.s.run.value) == Ok(StateSummary(p.runs[id], p.s.run.value.status, p.s.run.value.finalizedAt)))
  {
    HistoryStaysRelated(cfg, id, maxRuns, states, events, n);
    var p := states[n];
    assert Next(cfg, id, maxRuns, p, events[n], states[n + 1]);
    if events[n].Deliver? {
      DeliveryAgrees(cfg, p.s, p.runs, maxRuns, events[n].x, p.now, events[n].others);
    }
    if p.s.run.Some? && !p.s.run.value.status.Open? {
      SummariesAgree(cfg, p.s.run.value, p.runs[id]);
    }
  }
}
