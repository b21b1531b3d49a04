/** What the kept invariants mean for a caller: conservation, decodable summaries, duplicates, deadlines, the outbox. */
module RunOutcomes {
  import opened Common
  import opened Histogram
  import opened RunRecord
  import opened RunLaws

  // ---- Conservation --------------------------------------------------------------------------

  function SumBy(xs: seq<Slice>, f: Slice -> nat): nat {
    if xs == [] then 0 else SumBy(xs[..|xs| - 1], f) + f(xs[|xs| - 1])
  }

  ghost predicate Distinct(xs: seq<Slice>) {
    && (forall i, j :: 0 <= i < j < |xs| ==> xs[i].index != xs[j].index)
    && (forall i, j :: 0 <= i < j < |xs| ==> xs[i].key != xs[j].key)
  }

  /** `t` is the sum of `xs`, counter by counter, and records their identities. */
  ghost predicate IsSumOf(t: Tally, xs: seq<Slice>) {
    && t.received == |xs|
    && t.total == SumBy(xs, (x: Slice) => x.total)
    && t.success == SumBy(xs, (x: Slice) => x.success)
    && t.failure == SumBy(xs, (x: Slice) => x.failure)
    && (forall i: nat :: At(t.latency, i) == SumBy(xs, (x: Slice) => At(x.counts, i)))
    && (forall kind :: Count(t.errors, kind) == SumBy(xs, (x: Slice) => Count(x.errors, kind)))
  }

  /** Which execution delivered each slice of `xs`, and the reverse. */
  function KeyOf(xs: seq<Slice>): map<nat, string> {
    if xs == [] then map[] else KeyOf(xs[..|xs| - 1])[xs[|xs| - 1].index := xs[|xs| - 1].key]
  }

  function IndexOf(xs: seq<Slice>): map<string, nat> {
    if xs == [] then map[] else IndexOf(xs[..|xs| - 1])[xs[|xs| - 1].key := xs[|xs| - 1].index]
  }

  lemma {:induction false} IdentitiesCover(xs: seq<Slice>, n: nat)
    requires n < |xs|
    ensures xs[n].index in KeyOf(xs) && xs[n].key in IndexOf(xs)
  {
    if n < |xs| - 1 {
      IdentitiesCover(xs[..|xs| - 1], n);
    }
  }

  lemma DistinctExtends(xs: seq<Slice>, x: Slice)
    requires Distinct(xs) && x.index !in KeyOf(xs) && x.key !in IndexOf(xs)
    ensures Distinct(xs + [x])
  {
    forall n | 0 <= n < |xs| ensures xs[n].index != x.index && xs[n].key != x.key {
      IdentitiesCover(xs, n);
    }
  }

  lemma MergeExtendsSum(t: Tally, xs: seq<Slice>, x: Slice)
    requires IsSumOf(t, xs)
    ensures IsSumOf(Merged(t, x), xs + [x])
  {
    assert (xs + [x])[..|xs|] == xs;
  }

  /** `r` holds exactly the slices `xs`, no slice or execution twice. */
  ghost predicate Holds(r: Run, xs: seq<Slice>) {
    && IsSumOf(r.tally, xs) && Distinct(xs)
    && r.tally.slices == KeyOf(xs) && r.tally.executions == IndexOf(xs)
    && forall n :: 0 <= n < |xs| ==> xs[n].meta == r.meta && xs[n].bounds == r.bounds
  }

  ghost predicate FoldInv(w: World) {
    match w.slot.run
    case None => w.accepted == []
    case Some(r) => Holds(r, w.accepted)
  }

  lemma MergeExtends(r: Run, r': Run, xs: seq<Slice>, x: Slice)
    requires Holds(r, xs) && x.index !in r.tally.slices && x.key !in r.tally.executions
    requires r'.meta == r.meta == x.meta && r'.bounds == x.bounds && (xs != [] ==> r.bounds == x.bounds)
    requires r'.tally == Merged(r.tally, x)
    ensures Holds(r', xs + [x])
  {
    MergeExtendsSum(r.tally, xs, x);
    DistinctExtends(xs, x);
    assert (xs + [x])[..|xs|] == xs;
  }

  lemma EmptySum(meta: Meta, bounds: seq<nat>, firstAt: nat, deadlineAt: nat)
    ensures Holds(NewRun(meta, bounds, firstAt, deadlineAt), [])
  {
  }

  lemma NextFolds(cfg: Config, s: Slot, r: Run, x: Slice, now: nat, xs: seq<Slice>)
    requires Holds(r, xs) && s.run == Some(r)
    ensures var (s', reply) := IngestNext(s, r, x, now, cfg);
            s'.run.Some? && Holds(s'.run.value, if Merges(reply) then xs + [x] else xs)
  {
    var noted := Noted(r, x);
    assert Holds(noted, xs);
    if Screen(r, x).Merge? {
      AbsorbStores(cfg, s.(run := Some(noted)), noted, x, now);
      var (s', reply) := IngestNext(s, r, x, now, cfg);
      if Merges(reply) {
        MergeExtends(noted, s'.run.value, xs, x);
      }
    }
  }

  lemma IngestFolds(cfg: Config, w: World, op: Op)
    requires FoldInv(w) && op.Ingest?
    ensures FoldInv(Script(cfg, w, op))
  {
    var x := op.x;
    if w.slot.run.Some? {
      NextFolds(cfg, Pruned(w.slot, w.now), w.slot.run.value, x, w.now, w.accepted);
    } else {
      var first := NewRun(x.meta, x.bounds, w.now, w.now + cfg.partialTimeout);
      EmptySum(x.meta, x.bounds, w.now, w.now + cfg.partialTimeout);
      AbsorbStores(cfg, Pruned(w.slot, w.now), first, x, w.now);
      var (s', reply) := IngestStep(w.slot, x, w.now, cfg, op.others);
      if Merges(reply) {
        MergeExtends(first, s'.run.value, [], x);
      }
    }
  }

  lemma ScriptFolds(cfg: Config, w: World, op: Op)
    requires FoldInv(w)
    ensures FoldInv(Script(cfg, w, op))
  {
    if op.Ingest? {
      IngestFolds(cfg, w, op);
    } else if Script(cfg, w, op).slot.run.Some? {
      OnlyIngestMerges(cfg, w, op);
    } else {
      OnlyExpiryDrops(cfg, w, op);
    }
  }

  lemma OnlyExpiryDrops(cfg: Config, w: World, op: Op)
    requires Script(cfg, w, op).slot.run.None?
    ensures w.slot.run.None?
  {
  }

  /**
   Whatever the order of scripts, duplicates, rejections and finalizations, the record is the sum of
   the accepted slices: each slice and each execution once, counter by counter.
   */
  lemma {:induction false} RecordIsSumOfAcceptedSlices(cfg: Config, ops: seq<Op>)
    ensures FoldInv(Exec(cfg, START, ops))
  {
    if ops != [] {
      RecordIsSumOfAcceptedSlices(cfg, ops[..|ops| - 1]);
      ScriptFolds(cfg, Live(Exec(cfg, START, ops[..|ops| - 1])), ops[|ops| - 1]);
    }
  }

  // ---- Summaries -----------------------------------------------------------------------------

  lemma NoStrayIndex(r: Run)
    requires TallyInv(r.meta, r.bounds, r.tally)
    ensures !exists i :: i in r.tally.slices && i >= r.meta.expected
  {
  }

  /**
   A finalized record decodes unless bounds were noted for a run that never accepted a slice. What
   it decodes to names exactly the slices that never arrived and a histogram that sums to the total.
   */
  lemma FinalizedRecordDecodes(r: Run)
    requires TallyInv(r.meta, r.bounds, r.tally) && ControlInv(r) && !r.status.Open?
    ensures SummaryOf(r).Ok? <==> r.bounds == [] || r.tally.received > 0
    ensures SummaryOf(r).Ok? ==>
              var v := SummaryOf(r).value;
              && v.missing == Upto(r.meta.expected) - r.tally.slices.Keys
              && |v.missing| == r.meta.expected - v.received
              && (v.status.Complete? <==> v.missing == {})
              && v.success + v.failure == v.total
              && (v.histogram != [] ==> Sum(Counts(v.histogram)) == v.total)
  {
    BoundedIdentities(r.meta, r.bounds, r.tally);
    NoStrayIndex(r);
    assert Upto(r.meta.expected) == (Upto(r.meta.expected) - r.tally.slices.Keys) + r.tally.slices.Keys;
    if r.tally.received > 0 {
      assert Counts(Zip(r.bounds, r.tally.latency[..|r.bounds|])) == r.tally.latency;
    }
  }

  /** The reachable form: every summary a publisher can load decodes, except in that one case. */
  lemma LoadedSummaryDecodes(cfg: Config, ops: seq<Op>)
    requires ValidConfig(cfg) && LegalRun(cfg, START, ops)
    ensures var s := Exec(cfg, START, ops).slot;
            s.run.Some? && !s.run.value.status.Open? ==>
              (LoadSummary(s).Err? <==> s.run.value.bounds != [] && s.run.value.tally.received == 0)
  {
    RunKeepsInv(cfg, ops);
    var s := Exec(cfg, START, ops).slot;
    if s.run.Some? && !s.run.value.status.Open? {
      FinalizedRecordDecodes(s.run.value);
    }
  }

  // ---- Rejections ----------------------------------------------------------------------------

  /** The incoming result would set the still unset bounds of a registered run. */
  predicate FillsBounds(s: Slot, x: Slice) {
    && s.run.Some? && s.run.value.meta == x.meta
    && s.run.value.bounds == [] && s.run.value.tally.received == 0 && x.bounds != []
  }

  /** A result that is not merged leaves the record as it was, except that it may still fix unset bounds. */
  lemma RejectionChangesOnlyUnsetBounds(cfg: Config, s: Slot, x: Slice, now: nat, others: nat)
    requires now + cfg.partialTimeout <= MAX_EXACT && !Merges(IngestStep(s, x, now, cfg, others).1)
    ensures IngestStep(s, x, now, cfg, others).0.run == s.run <==> !FillsBounds(s, x)
  {
    match s.run
    case None => AbsorbStores(cfg, Pruned(s, now), NewRun(x.meta, x.bounds, now, now + cfg.partialTimeout), x, now);
    case Some(r) => AbsorbStores(cfg, Pruned(s, now).(run := Some(Noted(r, x))), Noted(r, x), x, now);
  }

  /** A cancelled run that never received a slice decodes; one rejected result later it does not. */
  lemma RejectedResultBreaksSummary(cfg: Config, s: Slot, x: Slice, now: nat, others: nat)
    requires SlotInv(cfg, s, now) && ValidSlice(x) && now + cfg.partialTimeout <= MAX_EXACT
    requires FillsBounds(s, x) && s.run.value.status.Cancelled?
    ensures LoadSummary(s).Ok?
    ensures var (s', reply) := IngestStep(s, x, now, cfg, others);
            reply.Inconsistent? && LoadSummary(s').Err?
  {
    var r := s.run.value;
    FinalizedRecordDecodes(r);
    FinalizedRecordDecodes(r.(bounds := x.bounds));
    assert Noted(r, x) == r.(bounds := x.bounds);
  }

  /** Such a run is one registration and one cancellation away. */
  lemma CancelledEmptyRunIsReachable(cfg: Config, meta: Meta, now: nat, x: Slice)
    requires ValidConfig(cfg) && meta.expected >= 1 && now + cfg.retention <= MAX_EXACT
    requires x.meta == meta && x.bounds != []
    ensures var s := RegisterStep(EMPTY_SLOT, meta, now + cfg.partialTimeout, now, cfg, 0).0;
            var s' := FinalizeStep(s, Cancelled, now, cfg).0;
            FillsBounds(s', x) && s'.run.value.status.Cancelled?
  {
    var s := RegisterStep(EMPTY_SLOT, meta, now + cfg.partialTimeout, now, cfg, 0).0;
    assert s.run == Some(NewRun(meta, [], 0, now + cfg.partialTimeout));
  }

  // ---- Duplicates ----------------------------------------------------------------------------

  /**
   Redelivering an accepted result is a duplicate exactly when it carries a histogram: without one
   the run is refused as if its stored bounds were corrupt.
   */
  lemma RedeliveryIsDuplicate(cfg: Config, w: World, x: Slice, others: nat)
    requires FoldInv(w) && x in w.accepted && w.now + cfg.partialTimeout <= MAX_EXACT
    ensures var (s', reply) := IngestStep(w.slot, x, w.now, cfg, others);
            && s'.run == w.slot.run
            && (x.bounds != [] ==> reply.Duplicate?)
            && (x.bounds == [] ==> reply.InvalidState?)
  {
    var n :| 0 <= n < |w.accepted| && w.accepted[n] == x;
    KeysRecorded(w.accepted, n);
    assert w.slot.run.value.tally.received > 0;
  }

  lemma {:induction false} KeysRecorded(xs: seq<Slice>, n: nat)
    requires Distinct(xs) && n < |xs|
    ensures xs[n].index in KeyOf(xs) && KeyOf(xs)[xs[n].index] == xs[n].key
  {
    if n < |xs| - 1 {
      KeysRecorded(xs[..|xs| - 1], n);
    }
  }

  /** Consequently a run whose results carry no histogram accepts one slice and never another. */
  lemma RunWithoutHistogramAcceptsOneSlice(cfg: Config, w: World, x: Slice, others: nat)
    requires FoldInv(w) && w.slot.run.Some? && w.slot.run.value.bounds == [] && w.accepted != []
    ensures !Merges(IngestStep(w.slot, x, w.now, cfg, others).1)
  {
  }

  // ---- Deadlines -----------------------------------------------------------------------------

  /**
   No open run escapes the deadline scan: from its deadline until its key expires, which is strictly
   later, it is listed as due, and marking it then finalizes it and queues its summary.
   */
  lemma OpenRunIsFoundAtItsDeadline(cfg: Config, ops: seq<Op>, t: nat)
    requires ValidConfig(cfg) && LegalRun(cfg, START, ops)
    ensures var s := Exec(cfg, START, ops).slot;
            s.run.Some? && s.run.value.status.Open? ==>
              && s.expireAt.Some? && s.run.value.deadlineAt < s.expireAt.value
              && (s.run.value.deadlineAt <= t <= s.expireAt.value && t + cfg.retention <= MAX_EXACT ==>
                    && Evicted(s, t) == s && Due(s, t)
                    && var (s', reply) := ExpireStep(s, t, cfg);
                       && reply.MarkedTimedOut? && s'.run.value.status.TimedOut?
                       && s'.outbox == Some(t) && s'.expireAt.None?)
  {
    RunKeepsInv(cfg, ops);
  }

  // ---- The outbox ----------------------------------------------------------------------------

  /** An unacknowledged summary is in the outbox, and no passage of time drops its record. */
  lemma UnacknowledgedSummaryIsKept(cfg: Config, ops: seq<Op>, t: nat)
    requires ValidConfig(cfg) && LegalRun(cfg, START, ops)
    ensures var s := Exec(cfg, START, ops).slot;
            s.run.Some? && s.run.value.acked < s.run.value.revision ==> s.outbox.Some? && Evicted(s, t) == s
  {
    RunKeepsInv(cfg, ops);
  }

  /** Acknowledging an older revision never releases the current one. */
  lemma StaleAcknowledgementReleasesNothing(cfg: Config, s: Slot, revision: nat, now: nat)
    requires ControlOk(cfg, s, now) && s.run.Some? && 1 <= revision < s.run.value.revision
    ensures var (s', reply) := AcknowledgeStep(s, revision, now, cfg);
            && reply == Stale(s.run.value.revision)
            && s'.outbox == s.outbox && s'.expireAt == s.expireAt && s'.active == s.active
            && s'.run == Some(s.run.value.(acked := s'.run.value.acked))
            && (s.outbox.Some? ==> s'.run.value.pending > s'.run.value.acked)
  {
  }

  lemma CompleteRecordTakesNoSlice(cfg: Config, s: Slot, x: Slice, now: nat, others: nat)
    requires s.run.Some? && ControlInv(s.run.value) && s.run.value.status.Complete?
    ensures IngestStep(s, x, now, cfg, others).0.run == s.run
  {
    assert Noted(s.run.value, x) == s.run.value && !Screen(s.run.value, x).Merge?;
  }

  /** Once complete, a record is final: until it is dropped no script changes more than its acknowledgement. */
  lemma CompleteRecordIsFinal(cfg: Config, w: World, op: Op)
    requires w.slot.run.Some? && ControlInv(w.slot.run.value) && w.slot.run.value.status.Complete?
    ensures var s' := Script(cfg, w, op).slot;
            s'.run.Some? && s'.run.value == w.slot.run.value.(acked := s'.run.value.acked)
  {
    if op.Ingest? {
      CompleteRecordTakesNoSlice(cfg, w.slot, op.x, w.now, op.others);
    }
  }
}
