/** Runs that reach the cases in which a claim about summaries fails. */
module OutboxWitness {
  import opened Common
  import opened Histogram
  import opened RunRecord
  import opened RunLaws
  import opened RunOutcomes
  import opened SummaryOutbox

  const CFG := Config(10, 1, 1, 1, 0)
  const META := Meta("scenario", "run", 2, 1)

  // ---- An acknowledgement that crosses an expiry -------------------------------------------------

  ghost predicate Ends(states: seq<Sys>, actions: seq<Action>, s: Sys) {
    SummaryOutbox.Run(CFG, states, actions) && states[|actions|] == s
  }

  ghost predicate Reached(s: Sys) {
    exists states, actions :: Ends(states, actions, s)
  }

  lemma ReachedThen(s: Sys, a: Action, s': Sys)
    requires Reached(s) && Next(CFG, s, a, s')
    ensures Reached(s')
  {
    var states, actions :| Ends(states, actions, s);
    var more, next := states + [s'], actions + [a];
    forall n | 0 <= n < |next| ensures Next(CFG, more[n], next[n], more[n + 1]) {
      if n < |actions| {
        assert more[n] == states[n] && next[n] == actions[n] && more[n + 1] == states[n + 1];
      }
    }
    assert Ends(more, next, s');
  }

  /** A registered and then finalized run without slices, first at time `now`. */
  function Empty(status: Status, now: nat): RunRecord.Run {
    NewRun(META, [], 0, now + 1).(status := status, finalizedAt := now, revision := 1, pending := 1)
  }

  function Closed(status: Status, now: nat): Slot {
    Slot(Some(Empty(status, now)), None, None, Some(now), Some(MAX_EXACT))
  }

  function SummaryAt(status: Status, now: nat): Summary {
    Summary(META, status, 0, {0}, 0, 0, 0, [], map[], 0, now)
  }

  lemma ClosedLoads(status: Status, now: nat)
    requires status.Cancelled? || status.Partial?
    ensures LoadSummary(Closed(status, now)) == Ok(Some(DurableSummary(1, true, SummaryAt(status, now))))
  {
    assert Upto(1) == {0};
  }

  /** Registering and finalizing a run whose record does not exist. */
  lemma RegisterAndFinalize(s: Sys, status: Status)
    requires Reached(s) && (status.Cancelled? || status.Partial?) && s.w.now <= 11
    requires s.w.slot.run.None? && s.w.slot.expireAt.None? && s.w.slot.outbox.None? && s.w.accepted == []
    requires s.w.slot.active.Some? ==> s.w.slot.active.value <= s.w.now
    ensures Reached(s.(w := World(Closed(status, s.w.now), s.w.now, [])))
  {
    var now := s.w.now;
    var op := Register(META, now, 0, 0);
    var open := Slot(Some(NewRun(META, [], 0, now + 1)), Some(now + 10), Some(now + 1), None, Some(now + 10));
    assert Script(CFG, s.w, op) == World(open, now, []);
    ReachedThen(s, RunScript(op), s.(w := World(open, now, [])));
    assert Script(CFG, World(open, now, []), FinalizeRun(status)) == World(Closed(status, now), now, []);
    ReachedThen(s.(w := World(open, now, [])), RunScript(FinalizeRun(status)), s.(w := World(Closed(status, now), now, [])));
  }

  /** Two publishers load the same summary. */
  lemma LoadTwice(w: World, e: Event)
    requires w == World(Closed(Cancelled, 0), 0, []) && e == Event(0, 1, SummaryAt(Cancelled, 0)) && Reached(INIT.(w := w))
    ensures Reached(Sys(w, 0, map[0 := Loaded(e, 0), 1 := Loaded(e, 0)], {}))
  {
    ClosedLoads(Cancelled, 0);
    var one := Sys(w, 0, map[0 := Loaded(e, 0)], {});
    ReachedThen(INIT.(w := w), Load(0), one);
    ReachedThen(one, Load(1), Sys(w, 0, map[0 := Loaded(e, 0), 1 := Loaded(e, 0)], {}));
  }

  lemma PublishTwice(w: World, e: Event)
    requires Reached(Sys(w, 0, map[0 := Loaded(e, 0), 1 := Loaded(e, 0)], {}))
    ensures Reached(Sys(w, 0, map[0 := Sent(e, 0), 1 := Sent(e, 0)], {e}))
  {
    var two := Sys(w, 0, map[0 := Loaded(e, 0), 1 := Loaded(e, 0)], {});
    var three := Sys(w, 0, map[0 := Sent(e, 0), 1 := Loaded(e, 0)], {e});
    assert two.holding[0 := Sent(e, 0)] == three.holding;
    ReachedThen(two, Publish(0), three);
    var four := three.(holding := map[0 := Sent(e, 0), 1 := Sent(e, 0)]);
    assert three.holding[1 := Sent(e, 0)] == four.holding && three.published + {e} == four.published;
    ReachedThen(three, Publish(1), four);
  }

  /** The first record: cancelled, published twice, acknowledged once, expired. */
  lemma PausedPublisher(e: Event) returns (s: Sys)
    requires e == Event(0, 1, SummaryAt(Cancelled, 0))
    ensures Reached(s)
    ensures s == Sys(World(Slot(None, None, None, None, Some(10)), 11, []), 1, map[1 := Sent(e, 0)], {e})
  {
    assert Ends([INIT], [], INIT);
    RegisterAndFinalize(INIT, Cancelled);
    var w := World(Closed(Cancelled, 0), 0, []);
    LoadTwice(w, e);
    PublishTwice(w, e);
    s := ExpireAfterAck(Sys(w, 0, map[0 := Sent(e, 0), 1 := Sent(e, 0)], {e}), e);
  }

  lemma ExpireAfterAck(s: Sys, e: Event) returns (s': Sys)
    requires Reached(s) && e.revision == 1
    requires s == Sys(World(Closed(Cancelled, 0), 0, []), 0, map[0 := Sent(e, 0), 1 := Sent(e, 0)], {e})
    ensures Reached(s')
    ensures s' == Sys(World(Slot(None, None, None, None, Some(10)), 11, []), 1, map[1 := Sent(e, 0)], {e})
  {
    var released := Slot(Some(Empty(Cancelled, 0).(acked := 1)), Some(10), None, None, Some(10));
    assert AcknowledgeStep(s.w.slot, 1, 0, CFG).0 == released;
    var acked := Sys(World(released, 0, []), 0, map[1 := Sent(e, 0)], {e});
    assert s.holding - {0} == acked.holding;
    ReachedThen(s, Ack(0), acked);
    var later := acked.(w := World(released, 11, []));
    ReachedThen(acked, RunScript(Tick(11)), later);
    s' := later.(w := Live(later.w), life := 1);
    ReachedThen(later, Drop, s');
  }

  lemma SecondRecord() returns (s: Sys)
    ensures Reached(s)
    ensures var e := Event(0, 1, SummaryAt(Cancelled, 0));
            s == Sys(World(Closed(Partial, 11), 11, []), 1, map[1 := Sent(e, 0)], {e})
  {
    var paused := PausedPublisher(Event(0, 1, SummaryAt(Cancelled, 0)));
    RegisterAndFinalize(paused, Partial);
    s := paused.(w := World(Closed(Partial, 11), 11, []));
  }

  lemma LastAck(s: Sys, e: Event) returns (s': Sys)
    requires e == Event(0, 1, SummaryAt(Cancelled, 0))
    requires s == Sys(World(Closed(Partial, 11), 11, []), 1, map[1 := Sent(e, 0)], {e})
    ensures StrayAck(s, Ack(1)) && Next(CFG, s, Ack(1), s') && !Safe(s') && s'.published == {e}
    ensures s'.w.slot.run == Some(Empty(Partial, 11).(acked := 1))
  {
    s' := s.(w := Script(CFG, s.w, Acknowledge(1)), holding := s.holding - {1});
    assert AcknowledgeStep(s.w.slot, 1, 11, CFG).0 ==
           Slot(Some(Empty(Partial, 11).(acked := 1)), Some(21), None, None, Some(21));
  }

  lemma NewSummary()
    ensures SummaryOf(Empty(Partial, 11).(acked := 1)) == Ok(SummaryAt(Partial, 11))
  {
    assert Upto(1) == {0};
  }

  /**
   A publisher that pauses for longer than the retention acknowledges the cancelled record after the
   run was registered and finalized again: the new summary leaves the outbox unpublished.
   */
  lemma StrayAckHappens() returns (states: seq<Sys>, actions: seq<Action>, s: Sys, s': Sys)
    ensures ValidConfig(CFG) && Ends(states, actions, s) && StrayAck(s, Ack(1)) && Next(CFG, s, Ack(1), s') && !Safe(s')
    ensures s'.w.slot.run.Some? && SummaryOf(s'.w.slot.run.value) == Ok(SummaryAt(Partial, 11))
    ensures forall e :: e in s'.published ==> e.summary.status.Cancelled?
  {
    s := SecondRecord();
    s' := LastAck(s, Event(0, 1, SummaryAt(Cancelled, 0)));
    states, actions := EndingIn(s);
    NewSummary();
  }

  lemma EndingIn(s: Sys) returns (states: seq<Sys>, actions: seq<Action>)
    requires Reached(s)
    ensures Ends(states, actions, s)
  {
    states, actions :| Ends(states, actions, s);
  }

  // ---- Results without a histogram, and late ones -----------------------------------------------

  /** An empty slice `index` of `expected`, with or without a bucket. */
  function Part(index: nat, expected: nat, bucketed: bool): Slice {
    var key := if index == 0 then "a" else "b";
    Slice(Meta("scenario", "run", 2, expected), index, key, 0, 0, 0, if bucketed then [1] else [], if bucketed then [0] else [], map[])
  }

  lemma PartIsValid(index: nat, expected: nat, bucketed: bool)
    requires index < expected
    ensures ValidSlice(Part(index, expected, bucketed))
  {
  }

  lemma {:induction false} LegalSteps(ops: seq<Op>, op: Op, w: World)
    requires LegalRun(CFG, START, ops) && Exec(CFG, START, ops) == w && Legal(CFG, w, op)
    ensures LegalRun(CFG, START, ops + [op]) && Exec(CFG, START, ops + [op]) == Apply(CFG, w, op)
  {
    var more := ops + [op];
    assert more[..|ops|] == ops;
    forall n | 0 <= n < |more| ensures Legal(CFG, Exec(CFG, START, more[..n]), more[n]) {
      if n < |ops| {
        assert more[..n] == ops[..n];
      }
    }
  }

  lemma FirstMerge(x: Slice, r: RunRecord.Run)
    requires NewKinds(x.errors.Keys, {}) <= 1 && Fits(EMPTY_TALLY, x) && x.meta.expected > 1
    requires r == WithSlice(NewRun(x.meta, x.bounds, 0, 1), x, 0)
    ensures IngestStep(EMPTY_SLOT, x, 0, CFG, 0) == (Slot(Some(r), Some(10), Some(1), None, Some(10)), Accepted)
  {
    assert EMPTY_TALLY.errors.Keys == {};
  }

  lemma BareFits(x: Slice)
    requires x == Part(0, 2, false)
    ensures NewKinds(x.errors.Keys, {}) <= 1 && Fits(EMPTY_TALLY, x) && x.meta.expected > 1 && x.bounds == []
  {
    NewKindsIsDifference({}, {});
  }

  lemma AcceptedAlone(x: Slice, ops: seq<Op>)
    requires ValidSlice(x) && NewKinds(x.errors.Keys, {}) <= 1 && Fits(EMPTY_TALLY, x) && x.meta.expected > 1
    requires ops == [] + [Ingest(x, 0)]
    ensures LegalRun(CFG, START, ops) && Exec(CFG, START, ops).accepted == [x] && Exec(CFG, START, ops).now == 0
    ensures Live(Exec(CFG, START, ops)) == Exec(CFG, START, ops)
  {
    FirstMerge(x, WithSlice(NewRun(x.meta, x.bounds, 0, 1), x, 0));
    LegalSteps([], Ingest(x, 0), START);
  }

  /** A first result without a histogram is accepted, and refused when it is delivered again. */
  lemma EmptyHistogramIsRefusedAgain() returns (ops: seq<Op>, w: World, x: Slice)
    ensures LegalRun(CFG, START, ops) && Live(Exec(CFG, START, ops)) == w && x.bounds == []
    ensures x in w.accepted && IngestStep(w.slot, x, w.now, CFG, 0).1.InvalidState?
  {
    x := Part(0, 2, false);
    PartIsValid(0, 2, false);
    BareFits(x);
    ops := [] + [Ingest(x, 0)];
    AcceptedAlone(x, ops);
    w := Exec(CFG, START, ops);
    RecordIsSumOfAcceptedSlices(CFG, ops);
    RedeliveryIsDuplicate(CFG, w, x, 0);
  }

  /** An open run that misses its deadline at 1 is marked at 2. */
  lemma MissesDeadline(r: RunRecord.Run, xs: seq<Slice>)
    requires r.status.Open? && r.deadlineAt == 1 && r.revision == 0
    ensures var w := World(Slot(Some(r), Some(10), Some(1), None, Some(10)), 0, xs);
            && Apply(CFG, w, Tick(2)) == w.(now := 2)
            && Apply(CFG, w.(now := 2), Expire) == World(TimedOutSlot(r), 2, xs)
  {
  }

  function TimedOutSlot(r: RunRecord.Run): Slot {
    Slot(Some(r.(status := TimedOut, finalizedAt := 2, revision := 1, pending := 1)), None, None, Some(2), Some(MAX_EXACT))
  }

  lemma TimedOutOps(x: Slice, r: RunRecord.Run) returns (ops: seq<Op>)
    requires ValidSlice(x) && r.status.Open? && r.deadlineAt == 1 && r.revision == 0
    requires IngestStep(EMPTY_SLOT, x, 0, CFG, 0) == (Slot(Some(r), Some(10), Some(1), None, Some(10)), Accepted)
    ensures LegalRun(CFG, START, ops) && Exec(CFG, START, ops) == World(TimedOutSlot(r), 2, [x])
  {
    var one := World(Slot(Some(r), Some(10), Some(1), None, Some(10)), 0, [x]);
    MissesDeadline(r, [x]);
    LegalSteps([], Ingest(x, 0), START);
    LegalSteps([] + [Ingest(x, 0)], Tick(2), one);
    LegalSteps([] + [Ingest(x, 0)] + [Tick(2)], Expire, one.(now := 2));
    ops := [] + [Ingest(x, 0)] + [Tick(2)] + [Expire];
  }

  lemma LateMerge(s: Slot, r: RunRecord.Run, y: Slice)
    requires s.run == Some(r) && r.status.TimedOut? && Compatible(r, y) && r.bounds != []
    requires y.index !in r.tally.slices && y.key !in r.tally.executions && r.tally.received + 1 < r.meta.expected
    requires r.tally.kinds + NewKinds(y.errors.Keys, r.tally.errors.Keys) <= 1 && Fits(r.tally, y)
    ensures IngestStep(s, y, 2, CFG, 0).1.LateAccepted?
  {
  }

  ghost predicate GoesFirst(x: Slice) {
    NewKinds(x.errors.Keys, {}) == 0 && Fits(EMPTY_TALLY, x) && x.meta.expected == 3 && x.bounds != []
  }

  ghost predicate GoesSecond(t: Tally, y: Slice) {
    && y.index !in t.slices && y.key !in t.executions && t.received == 1
    && t.kinds + NewKinds(y.errors.Keys, t.errors.Keys) == 0 && Fits(t, y)
  }

  lemma FirstFits(x: Slice)
    requires x == Part(0, 3, true)
    ensures GoesFirst(x)
  {
    NewKindsIsDifference({}, {});
  }

  /** What merging the first part leaves. */
  ghost predicate HoldsFirst(t: Tally) {
    && t.slices == map[0 := "a"] && t.executions == map["a" := 0] && t.errors == map[] && t.kinds == 0
    && t.received == 1 && t.latency == [0] && t.total == t.success == t.failure == 0
  }

  lemma NoKinds()
    ensures NewKinds({}, {}) == 0
  {
    NewKindsIsDifference({}, {});
  }

  lemma FirstMerged(x: Slice, t: Tally)
    requires t == Merged(EMPTY_TALLY, x) && x.index == 0 && x.key == "a" && x.errors == map[] && x.counts == [0]
    requires x.total == x.success == x.failure == 0
    ensures t.slices == map[0 := "a"] && t.executions == map["a" := 0] && t.received == 1
    ensures t.latency == [0] && t.total == t.success == t.failure == 0
  {
    AddNothing(x.counts);
  }

  lemma FirstErrors(x: Slice, t: Tally)
    requires t == Merged(EMPTY_TALLY, x) && x.errors == map[]
    ensures t.errors == map[] && t.kinds == 0
  {
    assert EMPTY_TALLY.errors.Keys == {} && x.errors.Keys == {};
    NoKinds();
    assert AddErrors(map[], map[]).Keys == {};
  }

  lemma OnePartMerged(x: Slice, t: Tally)
    requires x == Part(0, 3, true) && t == Merged(EMPTY_TALLY, x)
    ensures HoldsFirst(t)
  {
    FirstMerged(x, t);
    FirstErrors(x, t);
  }

  lemma SecondFits(t: Tally, y: Slice)
    requires y == Part(1, 3, true) && HoldsFirst(t)
    ensures GoesSecond(t, y)
  {
    NewKindsIsDifference({}, {});
  }

  ghost predicate Siblings(x: Slice, y: Slice) {
    ValidSlice(x) && ValidSlice(y) && x.meta == y.meta && x.bounds == y.bounds
  }

  lemma PartsAreSiblings(x: Slice, y: Slice)
    requires x == Part(0, 3, true) && y == Part(1, 3, true)
    ensures Siblings(x, y)
  {
    PartIsValid(0, 3, true);
    PartIsValid(1, 3, true);
  }

  lemma PartsFit(x: Slice, y: Slice, t: Tally)
    requires x == Part(0, 3, true) && y == Part(1, 3, true) && t == Merged(EMPTY_TALLY, x)
    ensures Siblings(x, y) && GoesFirst(x) && GoesSecond(t, y)
  {
    PartsAreSiblings(x, y);
    FirstFits(x);
    OnePartMerged(x, t);
    SecondFits(t, y);
  }

  lemma Parts() returns (x: Slice, y: Slice, t: Tally)
    ensures t == Merged(EMPTY_TALLY, x) && Siblings(x, y) && GoesFirst(x) && GoesSecond(t, y)
  {
    x, y := Part(0, 3, true), Part(1, 3, true);
    t := Merged(EMPTY_TALLY, x);
    PartsFit(x, y, t);
  }

  lemma LateSetup() returns (ops: seq<Op>, w: World, y: Slice)
    ensures LegalRun(CFG, START, ops) && Exec(CFG, START, ops) == w && ValidSlice(y)
    ensures w.slot.run.Some? && w.slot.expireAt.None? && IngestStep(w.slot, y, w.now, CFG, 0).1.LateAccepted?
  {
    var x, t;
    x, y, t := Parts();
    var r := WithSlice(NewRun(x.meta, x.bounds, 0, 1), x, 0);
    FirstMerge(x, r);
    ops := TimedOutOps(x, r);
    LateMerge(TimedOutSlot(r), TimedOutSlot(r).run.value, y);
    w := World(TimedOutSlot(r), 2, [x]);
  }

  /** A slice that arrives after the deadline is accepted and changes the summary under the same revision. */
  lemma LateSliceHappens() returns (ops: seq<Op>, w: World, y: Slice)
    ensures ValidConfig(CFG) && LegalRun(CFG, START, ops) && Exec(CFG, START, ops) == w && ValidSlice(y)
    ensures w.slot.run.Some? && w.slot.expireAt.None?
    ensures var (s', reply) := IngestStep(w.slot, y, w.now, CFG, 0);
            && reply.LateAccepted? && s'.run.Some? && s'.run.value.revision == w.slot.run.value.revision
            && SummaryOf(s'.run.value) != SummaryOf(w.slot.run.value)
  {
    ops, w, y := LateSetup();
    RunLaws.RunKeepsInv(CFG, ops);
    LateSliceChangesNumberedSummary(CFG, w.slot, y, w.now, 0);
  }
}
