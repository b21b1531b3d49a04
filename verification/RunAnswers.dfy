/**
 What the aggregation scripts answer in every reachable state, read off the list of accepted slices
 rather than off the stored counters.
 */
module RunAnswers {
  import opened Common
  import opened Histogram
  import opened RunRecord
  import opened RunLaws
  import opened RunOutcomes

  // ---- Identities of accepted slices -------------------------------------------------------------

  /** The very slice was accepted before: same index, delivered by the same execution. */
  ghost predicate Seen(xs: seq<Slice>, x: Slice) {
    exists n :: 0 <= n < |xs| && xs[n].index == x.index && xs[n].key == x.key
  }

  /** Some accepted slice has the same index from another execution, or another index from the same execution. */
  ghost predicate Clashes(xs: seq<Slice>, x: Slice) {
    exists n :: 0 <= n < |xs| && (xs[n].index == x.index) != (xs[n].key == x.key)
  }

  lemma {:induction false} KeyOfFinds(xs: seq<Slice>, index: nat) returns (n: nat)
    requires index in KeyOf(xs)
    ensures n < |xs| && xs[n].index == index && xs[n].key == KeyOf(xs)[index]
  {
    var m := |xs| - 1;
    if xs[m].index == index {
      n := m;
    } else {
      n := KeyOfFinds(xs[..m], index);
    }
  }

  lemma {:induction false} IndexOfFinds(xs: seq<Slice>, key: string) returns (n: nat)
    requires key in IndexOf(xs)
    ensures n < |xs| && xs[n].key == key && xs[n].index == IndexOf(xs)[key]
  {
    var m := |xs| - 1;
    if xs[m].key == key {
      n := m;
    } else {
      n := IndexOfFinds(xs[..m], key);
    }
  }

  /** The two identity maps say exactly whether a slice was seen, clashes or is new. */
  lemma IdentityIsDecided(xs: seq<Slice>, x: Slice)
    requires Distinct(xs)
    ensures Seen(xs, x) <==> x.index in KeyOf(xs) && KeyOf(xs)[x.index] == x.key
    ensures Seen(xs, x) <==> x.key in IndexOf(xs) && IndexOf(xs)[x.key] == x.index
    ensures !Seen(xs, x) && !Clashes(xs, x) <==> x.index !in KeyOf(xs) && x.key !in IndexOf(xs)
    ensures !(Seen(xs, x) && Clashes(xs, x))
  {
    if x.index in KeyOf(xs) {
      var n := KeyOfFinds(xs, x.index);
      assert xs[n].key == x.key || Clashes(xs, x);
    }
    if x.key in IndexOf(xs) {
      var n := IndexOfFinds(xs, x.key);
      assert xs[n].index == x.index || Clashes(xs, x);
    }
    forall n | 0 <= n < |xs| ensures xs[n].index in KeyOf(xs) && xs[n].key in IndexOf(xs) {
      IdentitiesCover(xs, n);
    }
    if Seen(xs, x) {
      var n :| 0 <= n < |xs| && xs[n].index == x.index && xs[n].key == x.key;
      SeenMeansRecorded(xs, n);
    }
  }

  lemma SeenMeansRecorded(xs: seq<Slice>, n: nat)
    requires Distinct(xs) && n < |xs|
    ensures xs[n].index in KeyOf(xs) && KeyOf(xs)[xs[n].index] == xs[n].key
    ensures xs[n].key in IndexOf(xs) && IndexOf(xs)[xs[n].key] == xs[n].index
  {
    IdentitiesCover(xs, n);
    var m := KeyOfFinds(xs, xs[n].index);
    assert m == n;
    var k := IndexOfFinds(xs, xs[n].key);
    assert k == n;
  }

  // ---- Error kinds of accepted slices ------------------------------------------------------------

  function KindSet(xs: seq<Slice>): set<string> {
    if xs == [] then {} else KindSet(xs[..|xs| - 1]) + xs[|xs| - 1].errors.Keys
  }

  ghost predicate KindsKept(w: World) {
    w.slot.run.Some? ==> w.slot.run.value.tally.errors.Keys == KindSet(w.accepted)
  }

  function TallyOf(s: Slot): Tally {
    if s.run.Some? then s.run.value.tally else EMPTY_TALLY
  }

  /** The slice is merged into the tally, or the tally is left alone. */
  ghost predicate MergesOrNot(t: Tally, x: Slice, out: (Slot, IngestReply)) {
    TallyOf(out.0) == if Merges(out.1) then Merged(t, x) else t
  }

  lemma AbsorbMergesOrNot(cfg: Config, s: Slot, r: Run, x: Slice, now: nat, out: (Slot, IngestReply))
    requires out == Absorb(s, r, x, now, cfg) && TallyOf(s) == r.tally
    ensures MergesOrNot(r.tally, x, out)
  {
    AbsorbStores(cfg, s, r, x, now);
  }

  lemma FirstMergesOrNot(cfg: Config, s: Slot, x: Slice, now: nat, others: nat, out: (Slot, IngestReply))
    requires s.run.None? && out == IngestFirst(s, x, now, cfg, others)
    ensures MergesOrNot(EMPTY_TALLY, x, out)
  {
    var r := NewRun(x.meta, x.bounds, now, now + cfg.partialTimeout);
    AbsorbMergesOrNot(cfg, s, r, x, now, Absorb(s, r, x, now, cfg));
  }

  lemma NextMergesOrNot(cfg: Config, s: Slot, r: Run, x: Slice, now: nat, out: (Slot, IngestReply))
    requires out == IngestNext(s, r, x, now, cfg)
    ensures MergesOrNot(r.tally, x, out)
  {
    var noted := Noted(r, x);
    var s1 := s.(run := Some(noted));
    if Screen(r, x).Merge? {
      AbsorbMergesOrNot(cfg, s1, noted, x, now, out);
    }
  }

  lemma IngestMergesOrNot(cfg: Config, s: Slot, x: Slice, now: nat, others: nat)
    ensures MergesOrNot(TallyOf(s), x, IngestStep(s, x, now, cfg, others))
  {
    var out := IngestStep(s, x, now, cfg, others);
    if now + cfg.partialTimeout <= MAX_EXACT {
      match s.run
      case None => FirstMergesOrNot(cfg, Pruned(s, now), x, now, others, out);
      case Some(r) => NextMergesOrNot(cfg, Pruned(s, now), r, x, now, out);
    }
  }

  lemma KindSetAfter(xs: seq<Slice>, x: Slice)
    ensures KindSet(xs + [x]) == KindSet(xs) + x.errors.Keys
  {
    assert (xs + [x])[..|xs|] == xs;
  }

  lemma IngestKeepsKinds(cfg: Config, w: World, op: Op)
    requires KindsKept(w) && FoldInv(w) && op.Ingest?
    ensures KindsKept(Script(cfg, w, op))
  {
    IngestMergesOrNot(cfg, w.slot, op.x, w.now, op.others);
    KindSetAfter(w.accepted, op.x);
    assert EMPTY_TALLY.errors.Keys == {};
    assert TallyOf(w.slot).errors.Keys == KindSet(w.accepted);
  }

  lemma ScriptKeepsKinds(cfg: Config, w: World, op: Op)
    requires KindsKept(w) && FoldInv(w)
    ensures KindsKept(Script(cfg, w, op))
  {
    if op.Ingest? {
      IngestKeepsKinds(cfg, w, op);
    } else if Script(cfg, w, op).slot.run.Some? {
      OnlyIngestMerges(cfg, w, op);
    }
  }

  lemma {:induction false} KindsAreThoseAccepted(cfg: Config, ops: seq<Op>)
    ensures KindsKept(Exec(cfg, START, ops))
  {
    if ops != [] {
      var init := ops[..|ops| - 1];
      KindsAreThoseAccepted(cfg, init);
      RecordIsSumOfAcceptedSlices(cfg, init);
      ScriptKeepsKinds(cfg, Live(Exec(cfg, START, init)), ops[|ops| - 1]);
    }
  }

  // ---- The answer to a result --------------------------------------------------------------------

  /** Every counter of the accepted slices and `x` together stays exact. */
  ghost predicate Room(xs: seq<Slice>, x: Slice) {
    && SumBy(xs, (y: Slice) => y.total) + x.total <= MAX_EXACT
    && SumBy(xs, (y: Slice) => y.success) + x.success <= MAX_EXACT
    && SumBy(xs, (y: Slice) => y.failure) + x.failure <= MAX_EXACT
    && (forall i: nat :: i < |x.counts| ==> SumBy(xs, (y: Slice) => At(y.counts, i)) + x.counts[i] <= MAX_EXACT)
    && (forall kind :: kind in x.errors ==> SumBy(xs, (y: Slice) => Count(y.errors, kind)) + x.errors[kind] <= MAX_EXACT)
  }

  /** The answer to a slice that is new to its run. */
  ghost function NewSliceAnswer(cfg: Config, status: Status, xs: seq<Slice>, x: Slice): IngestReply {
    if status.Complete? || status.Cancelled? then Inconsistent
    else if |KindSet(xs) + x.errors.Keys| > cfg.maxKinds then KindCapacity
    else if !Room(xs, x) then CounterOverflow
    else if |xs| + 1 < x.meta.expected then (if status.Open? then Accepted else LateAccepted)
    else (if status.Open? then Completed else LateCompleted)
  }

  /** The answer to a result for a run whose record exists, from the slices accepted so far. */
  ghost function KnownRunAnswer(cfg: Config, r: Run, xs: seq<Slice>, x: Slice): IngestReply {
    if r.meta != x.meta || (r.bounds != [] && r.bounds != x.bounds) then Inconsistent
    else if r.bounds == [] && xs != [] then InvalidState
    else if Seen(xs, x) then Duplicate
    else if Clashes(xs, x) then Inconsistent
    else NewSliceAnswer(cfg, r.status, xs, x)
  }

  lemma RoomIsFits(t: Tally, xs: seq<Slice>, x: Slice)
    requires IsSumOf(t, xs)
    ensures Room(xs, x) <==> Fits(t, x)
  {
  }

  lemma KindsAfter(t: Tally, xs: seq<Slice>, x: Slice)
    requires t.errors.Keys == KindSet(xs) && t.kinds == |t.errors|
    ensures t.kinds + NewKinds(x.errors.Keys, t.errors.Keys) == |KindSet(xs) + x.errors.Keys|
  {
    NewKindsIsDifference(x.errors.Keys, t.errors.Keys);
    assert |t.errors| == |t.errors.Keys|;
    var have, more := KindSet(xs), x.errors.Keys - KindSet(xs);
    assert have + x.errors.Keys == have + more;
  }

  lemma AbsorbAnswers(cfg: Config, s: Slot, r: Run, xs: seq<Slice>, x: Slice, now: nat)
    requires IsSumOf(r.tally, xs) && r.tally.errors.Keys == KindSet(xs) && r.tally.kinds == |r.tally.errors|
    requires r.meta == x.meta && !r.status.Complete? && !r.status.Cancelled? && |xs| < r.meta.expected
    ensures Absorb(s, r, x, now, cfg).1 == NewSliceAnswer(cfg, r.status, xs, x)
  {
    RoomIsFits(r.tally, xs, x);
    KindsAfter(r.tally, xs, x);
  }

  /** Whether a result is screened out, from the slices accepted so far. */
  ghost predicate ScreenedByHistory(r: Run, xs: seq<Slice>, x: Slice, verdict: Verdict) {
    if r.meta != x.meta || (r.bounds != [] && r.bounds != x.bounds) then verdict == Reject(Inconsistent)
    else if r.bounds == [] && xs != [] then verdict == Reject(InvalidState)
    else if Seen(xs, x) then verdict == Repeat
    else if Clashes(xs, x) || r.status.Complete? || r.status.Cancelled? then verdict == Reject(Inconsistent)
    else verdict == Merge && |xs| < r.meta.expected
  }

  lemma ScreenAnswersByHistory(r: Run, xs: seq<Slice>, x: Slice)
    requires Holds(r, xs) && TallyInv(r.meta, r.bounds, r.tally) && ControlInv(r)
    ensures ScreenedByHistory(r, xs, x, Screen(r, x))
  {
    IdentityIsDecided(xs, x);
    BoundedIdentities(r.meta, r.bounds, r.tally);
  }

  lemma KnownRunIsAnswered(cfg: Config, s: Slot, r: Run, xs: seq<Slice>, x: Slice, now: nat)
    requires Holds(r, xs) && r.tally.errors.Keys == KindSet(xs) && TallyInv(r.meta, r.bounds, r.tally) && ControlInv(r)
    ensures IngestNext(s, r, x, now, cfg).1 == KnownRunAnswer(cfg, r, xs, x)
  {
    ScreenAnswersByHistory(r, xs, x);
    if Screen(r, x).Merge? {
      AbsorbAnswers(cfg, s.(run := Some(Noted(r, x))), Noted(r, x), xs, x, now);
    }
  }

  /**
   In every reachable state every result is answered by the slices accepted so far: a duplicate
   exactly when its index was accepted from its execution, a conflict when only one of the two
   matches or the run is over, a capacity or overflow refusal exactly when it would not fit, and
   otherwise merged, completing the run with the last slice.
   */
  lemma ResultsAreAnsweredByHistory(cfg: Config, ops: seq<Op>, x: Slice, others: nat)
    requires ValidConfig(cfg) && LegalRun(cfg, START, ops) && ValidSlice(x)
    requires Exec(cfg, START, ops).now + cfg.partialTimeout <= MAX_EXACT
    ensures var w := Live(Exec(cfg, START, ops));
            IngestStep(w.slot, x, w.now, cfg, others).1 ==
              if w.slot.run.Some? then KnownRunAnswer(cfg, w.slot.run.value, w.accepted, x)
              else if others + (if w.slot.active.Some? && w.slot.active.value > w.now then 1 else 0) >= cfg.maxActive then ActiveCapacity
              else NewSliceAnswer(cfg, Open, [], x)
  {
    var w := Live(Exec(cfg, START, ops));
    RunLaws.RunKeepsInv(cfg, ops);
    EvictionKeepsInv(cfg, Exec(cfg, START, ops));
    RecordIsSumOfAcceptedSlices(cfg, ops);
    KindsAreThoseAccepted(cfg, ops);
    match w.slot.run
    case Some(r) => KnownRunIsAnswered(cfg, Pruned(w.slot, w.now), r, w.accepted, x, w.now);
    case None => FirstIsAnswered(cfg, Pruned(w.slot, w.now), x, w.now);
  }

  lemma FirstIsAnswered(cfg: Config, s: Slot, x: Slice, now: nat)
    requires ValidSlice(x)
    ensures Absorb(s, NewRun(x.meta, x.bounds, now, now + cfg.partialTimeout), x, now, cfg).1 == NewSliceAnswer(cfg, Open, [], x)
  {
    assert EMPTY_TALLY.errors.Keys == {};
    AbsorbAnswers(cfg, s, NewRun(x.meta, x.bounds, now, now + cfg.partialTimeout), [], x, now);
  }

  /** For results that fit their run, a duplicate is exactly a slice accepted before, and a half match never merges. */
  lemma DuplicatesAreExactlyAcceptedIdentities(cfg: Config, ops: seq<Op>, x: Slice, others: nat)
    requires ValidConfig(cfg) && LegalRun(cfg, START, ops) && ValidSlice(x)
    requires Exec(cfg, START, ops).now + cfg.partialTimeout <= MAX_EXACT
    requires var s := Live(Exec(cfg, START, ops)).slot; s.run.Some? && s.run.value.meta == x.meta && s.run.value.bounds == x.bounds != []
    ensures var w := Live(Exec(cfg, START, ops));
            var (s', reply) := IngestStep(w.slot, x, w.now, cfg, others);
            && (reply.Duplicate? <==> Seen(w.accepted, x))
            && (Clashes(w.accepted, x) ==> reply.Inconsistent? && s'.run == w.slot.run)
            && (Seen(w.accepted, x) ==> s'.run == w.slot.run)
  {
    var w := Live(Exec(cfg, START, ops));
    ResultsAreAnsweredByHistory(cfg, ops, x, others);
    RecordIsSumOfAcceptedSlices(cfg, ops);
    IdentityIsDecided(w.accepted, x);
    if Clashes(w.accepted, x) || Seen(w.accepted, x) {
      RejectionChangesOnlyUnsetBounds(cfg, w.slot, x, w.now, others);
    }
  }

  // ---- Index scores ------------------------------------------------------------------------------

  /** When the record leaves the active index: with its key, or never while a summary waits. */
  function Leaves(s: Slot): nat {
    if s.expireAt.Some? then s.expireAt.value else MAX_EXACT
  }

  /** The active entry carries the key's expiry until it is due, and a queued summary its time of finalization. */
  ghost predicate ScoresOk(s: Slot, now: nat) {
    s.run.Some? ==>
      && (s.active == Some(Leaves(s)) || (s.active.None? && Leaves(s) <= now))
      && (s.outbox.Some? ==> s.outbox == Some(s.run.value.finalizedAt))
  }

  lemma AbsorbKeepsScores(cfg: Config, s: Slot, r: Run, x: Slice, now: nat)
    requires ScoresOk(s, now) && (s.run.None? ==> s.outbox.None?)
    requires s.run.Some? ==> s.run.value.finalizedAt == r.finalizedAt && s.run.value.pending == r.pending && s.run.value.acked == r.acked
    ensures ScoresOk(Absorb(s, r, x, now, cfg).0, now)
  {
  }

  lemma IngestKeepsScores(cfg: Config, s: Slot, x: Slice, now: nat, others: nat)
    requires ScoresOk(s, now) && ControlOk(cfg, s, now)
    ensures ScoresOk(IngestStep(s, x, now, cfg, others).0, now)
  {
    match s.run
    case None => AbsorbKeepsScores(cfg, Pruned(s, now), NewRun(x.meta, x.bounds, now, now + cfg.partialTimeout), x, now);
    case Some(r) => AbsorbKeepsScores(cfg, Pruned(s, now).(run := Some(Noted(r, x))), Noted(r, x), x, now);
  }

  lemma ScriptKeepsScores(cfg: Config, w: World, op: Op)
    requires ScoresOk(w.slot, w.now) && ControlOk(cfg, w.slot, w.now)
    ensures ScoresOk(Script(cfg, w, op).slot, Script(cfg, w, op).now)
  {
    if op.Ingest? {
      IngestKeepsScores(cfg, w.slot, op.x, w.now, op.others);
    }
  }

  /** In every reachable state the active index holds the record exactly as long as its key lives. */
  lemma {:induction false} ScoresFollowTheRecord(cfg: Config, ops: seq<Op>)
    requires ValidConfig(cfg) && LegalRun(cfg, START, ops)
    ensures ScoresOk(Exec(cfg, START, ops).slot, Exec(cfg, START, ops).now)
  {
    if ops != [] {
      LegalPrefix(cfg, START, ops);
      var init := ops[..|ops| - 1];
      var w := Exec(cfg, START, init);
      ScoresFollowTheRecord(cfg, init);
      RunLaws.RunKeepsInv(cfg, init);
      EvictionKeepsInv(cfg, w);
      ScriptKeepsScores(cfg, Live(w), ops[|ops| - 1]);
    }
  }

  // ---- The answers of the other scripts ----------------------------------------------------------

  /** A slot that some legal sequence of scripts reaches, as the next script sees it at `now`. */
  ghost predicate Reachable(cfg: Config, s: Slot, now: nat) {
    exists ops :: Reaches(cfg, ops, s, now)
  }

  ghost predicate Reaches(cfg: Config, ops: seq<Op>, s: Slot, now: nat) {
    LegalRun(cfg, START, ops) && Exec(cfg, START, ops).now == now && Live(Exec(cfg, START, ops)).slot == s
  }

  lemma ReachableInv(cfg: Config, s: Slot, now: nat)
    requires ValidConfig(cfg) && Reachable(cfg, s, now)
    ensures ControlOk(cfg, s, now)
  {
    var ops :| Reaches(cfg, ops, s, now);
    RunLaws.RunKeepsInv(cfg, ops);
    EvictionKeepsInv(cfg, Exec(cfg, START, ops));
  }

  /** `s'` holds `r` finalized for the first time: revision 1 waits in the outbox and nothing merged changed. */
  predicate FinalizedOnce(r: Run, s': Slot, status: Status, now: nat) {
    && s'.run == Some(r.(status := status, finalizedAt := now, revision := 1, pending := 1))
    && s'.outbox == Some(now) && s'.deadline.None? && s'.expireAt.None?
  }

  /** The record, its place in the outbox and its expiry are as before. */
  predicate SameRecord(s: Slot, s': Slot) {
    s'.run == s.run && s'.outbox == s.outbox && s'.expireAt == s.expireAt
  }

  /** The deadline script marks exactly the open runs at or past their deadline and tells the others the exact wait. */
  predicate DeadlineAnswer(cfg: Config, s: Slot, now: nat, later: nat) {
    var (s', reply) := ExpireStep(s, now, cfg);
    if s.run.None? then reply.NoRun? && s' == EMPTY_SLOT.(expireAt := s.expireAt)
    else if !s.run.value.status.Open? then reply.AlreadyFinalized? && SameRecord(s, s')
    else if Due(s, now) then reply.MarkedTimedOut? && FinalizedOnce(s.run.value, s', TimedOut, now)
    else reply.NotExpired? && s' == s && (Due(s, later) <==> later >= now + reply.retryAfter)
  }

  lemma GoodDeadlineAnswer(cfg: Config, s: Slot, now: nat, later: nat)
    requires ControlOk(cfg, s, now) && now + cfg.retention <= MAX_EXACT
    ensures DeadlineAnswer(cfg, s, now, later)
  {
  }

  lemma DeadlineIsAnswered(cfg: Config, s: Slot, now: nat, later: nat)
    requires ValidConfig(cfg) && Reachable(cfg, s, now) && now + cfg.retention <= MAX_EXACT
    ensures DeadlineAnswer(cfg, s, now, later)
  {
    ReachableInv(cfg, s, now);
    GoodDeadlineAnswer(cfg, s, now, later);
  }

  /** Explicit finalization works once, on an open run; later ones keep the record. */
  predicate FinalizationAnswer(cfg: Config, s: Slot, now: nat, status: Status) {
    var (s', reply) := FinalizeStep(s, status, now, cfg);
    if !status.Partial? && !status.Cancelled? then reply.BadFinalize? && s' == s
    else if s.run.None? then reply.FinalizeMissing? && s' == EMPTY_SLOT.(expireAt := s.expireAt)
    else if s.run.value.status.Open? then reply.FinalizedNow? && FinalizedOnce(s.run.value, s', status, now)
    else reply.FinalizedBefore? && SameRecord(s, s')
  }

  lemma GoodFinalizationAnswer(cfg: Config, s: Slot, now: nat, status: Status)
    requires ControlOk(cfg, s, now) && now + cfg.retention <= MAX_EXACT
    ensures FinalizationAnswer(cfg, s, now, status)
  {
  }

  lemma FinalizationIsAnswered(cfg: Config, s: Slot, now: nat, status: Status)
    requires ValidConfig(cfg) && Reachable(cfg, s, now) && now + cfg.retention <= MAX_EXACT
    ensures FinalizationAnswer(cfg, s, now, status)
  {
    ReachableInv(cfg, s, now);
    GoodFinalizationAnswer(cfg, s, now, status);
  }

  /**
   Acknowledging the current revision takes the summary out of the outbox and starts the retention;
   an older one is reported with the current revision and leaves it queued; a revision that does not
   exist is refused.
   */
  predicate AcknowledgementAnswer(cfg: Config, s: Slot, now: nat, revision: nat) {
    var (s', reply) := AcknowledgeStep(s, revision, now, cfg);
    if s.run.None? then reply.AckMissing? && s'.run.None? && s'.active.None?
    else
      var r := s.run.value;
      if revision == 0 || revision > r.revision then reply.BadAck? && s' == s
      else if revision < r.revision then
        && reply == Stale(r.revision) && s' == s.(run := s'.run)
        && s'.run == Some(r.(acked := if revision > r.acked then revision else r.acked))
      else
        && reply == (if s.outbox.Some? then Acknowledged else AlreadyAcknowledged)
        && s'.run == Some(r.(acked := revision)) && s'.outbox.None? && s'.deadline == s.deadline
        && s'.expireAt == Some(now + cfg.retention)
  }

  lemma GoodAcknowledgementAnswer(cfg: Config, s: Slot, now: nat, revision: nat)
    requires ControlOk(cfg, s, now)
    ensures AcknowledgementAnswer(cfg, s, now, revision)
  {
  }

  lemma AcknowledgementIsAnswered(cfg: Config, s: Slot, now: nat, revision: nat)
    requires ValidConfig(cfg) && Reachable(cfg, s, now)
    ensures AcknowledgementAnswer(cfg, s, now, revision)
  {
    ReachableInv(cfg, s, now);
    GoodAcknowledgementAnswer(cfg, s, now, revision);
  }

  /** In a reachable state the outbox holds nothing to clean. */
  lemma OutboxIsClean(cfg: Config, s: Slot, now: nat)
    requires ValidConfig(cfg) && Reachable(cfg, s, now)
    ensures CleanStep(s) == s
  {
    ReachableInv(cfg, s, now);
  }

  predicate RoomForOne(cfg: Config, s: Slot, now: nat, others: nat) {
    others + (if s.active.Some? && s.active.value > now then 1 else 0) < cfg.maxActive
  }

  /** Registration creates the record with its deadline if there is none and room, and otherwise only compares metadata. */
  lemma RegistrationIsAnswered(cfg: Config, s: Slot, now: nat, meta: Meta, deadlineAt: nat, others: nat)
    requires meta.expected >= 1 && deadlineAt <= MAX_EXACT
    ensures var (s', reply) := RegisterStep(s, meta, deadlineAt, now, cfg, others);
            if s.run.Some? && s.run.value.meta == meta then reply.RegisteredBefore? && s'.run == s.run && Refreshed(cfg, s', now)
            else if s.run.Some? then reply.RegistrationConflict? && SameRecord(s, s')
            else if !RoomForOne(cfg, s, now, others) then reply.RegistrationCapacity? && s'.run.None?
            else
              && reply.Registered? && s'.run == Some(NewRun(meta, [], 0, deadlineAt)) && s'.deadline == Some(deadlineAt)
              && s'.expireAt == Some(now + cfg.retention) && s'.active == s'.expireAt
  {
  }

  /** A merged or repeated result starts the retention again unless a summary waits. */
  ghost predicate RetainedIfTouched(cfg: Config, now: nat, out: (Slot, IngestReply)) {
    out.1.Duplicate? || Merges(out.1) ==> out.0.expireAt == if out.0.outbox.Some? then None else Some(now + cfg.retention)
  }

  lemma TouchingRefreshesRetention(cfg: Config, s: Slot, now: nat, x: Slice, others: nat)
    requires ValidConfig(cfg) && Reachable(cfg, s, now) && ValidSlice(x) && now + cfg.partialTimeout <= MAX_EXACT
    ensures RetainedIfTouched(cfg, now, IngestStep(s, x, now, cfg, others))
  {
    ReachableInv(cfg, s, now);
    IngestKeepsControl(cfg, s, x, now, others);
    RetentionAfterMerge(cfg, s, x, now, others);
    RefreshedIsRetained(cfg, now, IngestStep(s, x, now, cfg, others));
  }

  lemma RefreshedIsRetained(cfg: Config, now: nat, out: (Slot, IngestReply))
    requires ControlOk(cfg, out.0, now) && RefreshedIfTouched(cfg, now, out)
    ensures RetainedIfTouched(cfg, now, out)
  {
  }

  /** A merged or repeated result has refreshed the retention. */
  ghost predicate RefreshedIfTouched(cfg: Config, now: nat, out: (Slot, IngestReply)) {
    out.1.Duplicate? || Merges(out.1) ==> Refreshed(cfg, out.0, now)
  }

  lemma NextRefreshes(cfg: Config, s: Slot, r: Run, x: Slice, now: nat, out: (Slot, IngestReply))
    requires out == IngestNext(s, r, x, now, cfg)
    ensures RefreshedIfTouched(cfg, now, out)
  {
    if Screen(r, x).Merge? {
      AbsorbRefreshes(cfg, s.(run := Some(Noted(r, x))), Noted(r, x), x, now);
    }
  }

  lemma RetentionAfterMerge(cfg: Config, s: Slot, x: Slice, now: nat, others: nat)
    ensures RefreshedIfTouched(cfg, now, IngestStep(s, x, now, cfg, others))
  {
    var out := IngestStep(s, x, now, cfg, others);
    match s.run
    case None => AbsorbRefreshes(cfg, Pruned(s, now), NewRun(x.meta, x.bounds, now, now + cfg.partialTimeout), x, now);
    case Some(r) =>
      if now + cfg.partialTimeout <= MAX_EXACT {
        NextRefreshes(cfg, Pruned(s, now), r, x, now, out);
      }
  }

  ghost predicate Refreshed(cfg: Config, s: Slot, now: nat) {
    s.run.Some? && s.expireAt == if s.run.value.acked < s.run.value.pending then None else Some(now + cfg.retention)
  }

  lemma AbsorbRefreshes(cfg: Config, s: Slot, r: Run, x: Slice, now: nat)
    ensures var (s', reply) := Absorb(s, r, x, now, cfg); Merges(reply) ==> Refreshed(cfg, s', now)
  {
  }

  /** Times beyond the exact range are refused and change nothing. */
  lemma InexactTimesAreRefused(cfg: Config, s: Slot, now: nat, x: Slice, status: Status, meta: Meta, deadlineAt: nat, others: nat)
    ensures now + cfg.partialTimeout > MAX_EXACT ==> IngestStep(s, x, now, cfg, others) == (s, InvalidState)
    ensures now + cfg.retention > MAX_EXACT && s.run.Some? ==> ExpireStep(s, now, cfg) == (s, BadExpiry)
    ensures now + cfg.retention > MAX_EXACT ==> FinalizeStep(s, status, now, cfg) == (s, BadFinalize)
    ensures deadlineAt > MAX_EXACT || meta.expected == 0 ==> RegisterStep(s, meta, deadlineAt, now, cfg, others) == (s, RegistrationConflict)
  {
  }

  // ---- First and last arrival --------------------------------------------------------------------

  /** When the slices merged into the current record arrived, in order. */
  ghost function Arrivals(cfg: Config, ops: seq<Op>): seq<nat> {
    if ops == [] then []
    else
      var w, op := Live(Exec(cfg, START, ops[..|ops| - 1])), ops[|ops| - 1];
      ArrivalsAfter(cfg, w, if w.slot.run.None? then [] else Arrivals(cfg, ops[..|ops| - 1]), op)
  }

  ghost function ArrivalsAfter(cfg: Config, w: World, times: seq<nat>, op: Op): seq<nat> {
    if op.Ingest? && Merges(IngestStep(w.slot, op.x, w.now, cfg, op.others).1) then times + [w.now] else times
  }

  /** Results come at positive times. */
  ghost predicate ClockRuns(cfg: Config, ops: seq<Op>) {
    forall n :: 0 <= n < |ops| && ops[n].Ingest? ==> Exec(cfg, START, ops[..n]).now > 0
  }

  /** The record knows its first and its last arrival, and no arrival lies in the future. */
  ghost predicate KnowsArrivals(s: Slot, now: nat, times: seq<nat>) {
    && (s.run.None? ==> times == [])
    && (s.run.Some? && times == [] ==> s.run.value.firstAt == 0 && s.run.value.lastAt == 0)
    && (s.run.Some? && times != [] ==>
          0 < times[0] && s.run.value.firstAt == times[0] && s.run.value.lastAt == times[|times| - 1] <= now)
  }

  lemma AbsorbStamps(cfg: Config, s: Slot, r: Run, x: Slice, now: nat, times: seq<nat>)
    requires KnowsArrivals(s, now, times) && now > 0
    requires s.run.Some? ==> s.run.value.firstAt == r.firstAt && s.run.value.lastAt == r.lastAt
    requires s.run.None? ==> r.firstAt == r.lastAt == now
    ensures var (s', reply) := Absorb(s, r, x, now, cfg); KnowsArrivals(s', now, if Merges(reply) then times + [now] else times)
  {
  }

  lemma IngestStamps(cfg: Config, s: Slot, x: Slice, now: nat, others: nat, times: seq<nat>)
    requires KnowsArrivals(s, now, times) && now > 0
    ensures var (s', reply) := IngestStep(s, x, now, cfg, others); KnowsArrivals(s', now, if Merges(reply) then times + [now] else times)
  {
    match s.run
    case None => AbsorbStamps(cfg, Pruned(s, now), NewRun(x.meta, x.bounds, now, now + cfg.partialTimeout), x, now, times);
    case Some(r) => AbsorbStamps(cfg, Pruned(s, now).(run := Some(Noted(r, x))), Noted(r, x), x, now, times);
  }

  lemma ScriptStamps(cfg: Config, w: World, op: Op, times: seq<nat>)
    requires KnowsArrivals(w.slot, w.now, times) && (op.Ingest? ==> w.now > 0)
    ensures KnowsArrivals(Script(cfg, w, op).slot, Script(cfg, w, op).now, ArrivalsAfter(cfg, w, times, op))
  {
    if op.Ingest? {
      IngestStamps(cfg, w.slot, op.x, w.now, op.others, times);
    }
  }

  /** In every reachable state the record's first and last times are those of the first and last slice it accepted. */
  lemma {:induction false} RecordKnowsItsArrivals(cfg: Config, ops: seq<Op>)
    requires ClockRuns(cfg, ops)
    ensures KnowsArrivals(Exec(cfg, START, ops).slot, Exec(cfg, START, ops).now, Arrivals(cfg, ops))
  {
    if ops != [] {
      var init, op := ops[..|ops| - 1], ops[|ops| - 1];
      assert ClockRuns(cfg, init) by {
        forall n | 0 <= n < |init| && init[n].Ingest? ensures Exec(cfg, START, init[..n]).now > 0 {
          assert init[..n] == ops[..n];
        }
      }
      RecordKnowsItsArrivals(cfg, init);
      var w := Live(Exec(cfg, START, init));
      ScriptStamps(cfg, w, op, if w.slot.run.None? then [] else Arrivals(cfg, init));
    }
  }

  /** Whatever the clock says, an ingestion never moves the last arrival backwards. */
  lemma LastArrivalNeverRunsBack(cfg: Config, s: Slot, x: Slice, now: nat, others: nat)
    requires s.run.Some?
    ensures var s' := IngestStep(s, x, now, cfg, others).0; s'.run.Some? && s.run.value.lastAt <= s'.run.value.lastAt
  {
  }

  /** Whatever the indexes hold, looking at a finalized run takes it out of the deadline index and keeps a waiting summary. */
  lemma FinalizedRunsAreSettled(cfg: Config, s: Slot, now: nat, status: Status)
    requires s.run.Some? && !s.run.value.status.Open? && now + cfg.retention <= MAX_EXACT && (status.Partial? || status.Cancelled?)
    ensures var s', s'' := ExpireStep(s, now, cfg).0, FinalizeStep(s, status, now, cfg).0;
            && s' == s'' && s'.run == s.run && s'.deadline.None? && s'.outbox == s.outbox
            && (s.run.value.pending > s.run.value.acked ==> s'.expireAt.None? && s'.active == Some(MAX_EXACT))
            && (s.run.value.pending <= s.run.value.acked ==> s'.expireAt == s.expireAt && s'.active == s.active)
  {
  }

  // ---- Decoding whatever is stored ---------------------------------------------------------------

  /**
   Whatever a record holds, a summary that decodes from it is consistent: finalized, complete exactly
   when nothing is missing, its identities within the run, its outcomes and its histogram summing to
   the total, its error kinds counted.
   */
  lemma DecodedSummaryIsConsistent(r: Run)
    requires SummaryOf(r).Ok?
    ensures var v := SummaryOf(r).value;
            && v.meta == r.meta && v.status == r.status && !v.status.Open? && v.received == |r.tally.slices| <= v.meta.expected
            && (v.status.Complete? <==> v.received == v.meta.expected)
            && (forall i :: i in r.tally.slices ==> i < v.meta.expected)
            && v.missing == Upto(v.meta.expected) - r.tally.slices.Keys
            && v.total == r.tally.total == v.success + v.failure && v.success == r.tally.success
            && StrictlyIncreasing(r.bounds) && Bounds(v.histogram) == r.bounds
            && (v.histogram != [] ==> Sum(Counts(v.histogram)) == v.total)
            && v.errors == r.tally.errors && |v.errors| == r.tally.kinds
            && v.firstAt == r.firstAt && v.finalizedAt == r.finalizedAt
  {
  }

  /** A loaded summary carries a revision that exists and is pending exactly until it is acknowledged. */
  lemma LoadedRevisionExists(s: Slot)
    requires LoadSummary(s).Ok? && LoadSummary(s).value.Some?
    ensures var d := LoadSummary(s).value.value;
            && s.run.Some? && SummaryOf(s.run.value) == Ok(d.summary) && 1 <= d.revision == s.run.value.revision
            && s.run.value.acked <= d.revision && s.run.value.pending <= d.revision
            && (d.pending <==> s.run.value.acked < s.run.value.pending)
  {
  }
}
