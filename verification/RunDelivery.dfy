/**
 Delivery order and repetition do not matter: the record depends only on which slices arrived.
 */
module RunDelivery {
  import opened Common
  import opened Histogram
  import opened RunRecord
  import opened RunLaws
  import opened RunOutcomes

  ghost predicate Separate(f: seq<Slice>) {
    && (forall i :: 0 <= i < |f| ==> f[i].index == i)
    && (forall i, j :: 0 <= i < j < |f| ==> f[i].key != f[j].key)
  }

  /** The results of one run, one per slice, that agree on metadata and histogram bounds. */
  ghost predicate Family(f: seq<Slice>) {
    && |f| >= 1 && f[0].bounds != [] && f[0].meta.expected == |f|
    && Separate(f)
    && (forall i :: 0 <= i < |f| ==> ValidSlice(f[i]) && f[i].meta == f[0].meta && f[i].bounds == f[0].bounds)
  }

  /** The slices of `arrived` merged in index order. */
  ghost function Canon(f: seq<Slice>, arrived: set<nat>, n: nat): Tally
    requires n <= |f|
  {
    if n == 0 then EMPTY_TALLY
    else if n - 1 in arrived then Merged(Canon(f, arrived, n - 1), f[n - 1])
    else Canon(f, arrived, n - 1)
  }

  lemma AddErrorsSwap(m: map<string, nat>, a: map<string, nat>, b: map<string, nat>)
    ensures AddErrors(AddErrors(m, a), b) == AddErrors(AddErrors(m, b), a)
  {
    SameCounts(AddErrors(AddErrors(m, a), b), AddErrors(AddErrors(m, b), a));
  }

  lemma NewKindsSwap(m: set<string>, a: set<string>, b: set<string>)
    ensures NewKinds(a, m) + NewKinds(b, m + a) == NewKinds(b, m) + NewKinds(a, m + b)
  {
    NewKindsIsDifference(a, m);
    NewKindsIsDifference(b, m + a);
    NewKindsIsDifference(b, m);
    NewKindsIsDifference(a, m + b);
    assert (a - m) + (b - (m + a)) == (b - m) + (a - (m + b));
    assert |(a - m) + (b - (m + a))| == |a - m| + |b - (m + a)|;
    assert |(b - m) + (a - (m + b))| == |b - m| + |a - (m + b)|;
  }

  lemma UpdateSwap<A, B>(m: map<A, B>, a: A, b: B, a': A, b': B)
    requires a != a'
    ensures m[a := b][a' := b'] == m[a' := b'][a := b]
  {
  }

  /** Merging two different slices commutes. */
  lemma MergedSwap(t: Tally, x: Slice, y: Slice)
    requires x.index != y.index && x.key != y.key
    ensures Merged(Merged(t, x), y) == Merged(Merged(t, y), x)
  {
    AddErrorsSwap(t.errors, x.errors, y.errors);
    AddCountsSwap(t.latency, x.counts, y.counts);
    NewKindsSwap(t.errors.Keys, x.errors.Keys, y.errors.Keys);
    UpdateSwap(t.slices, x.index, x.key, y.index, y.key);
    UpdateSwap(t.executions, x.key, x.index, y.key, y.index);
  }

  lemma {:induction false} CanonIgnoresLater(f: seq<Slice>, arrived: set<nat>, i: nat, n: nat)
    requires n <= i < |f|
    ensures Canon(f, arrived + {i}, n) == Canon(f, arrived, n)
  {
    if n > 0 {
      CanonIgnoresLater(f, arrived, i, n - 1);
    }
  }

  /** Slice `i` may as well be merged last. */
  lemma {:induction false} CanonInsert(f: seq<Slice>, arrived: set<nat>, i: nat, n: nat)
    requires Separate(f) && i < n <= |f| && i !in arrived
    ensures Canon(f, arrived + {i}, n) == Merged(Canon(f, arrived, n), f[i])
  {
    assert i != n - 1 ==> (n - 1 in arrived + {i} <==> n - 1 in arrived);
    if n - 1 == i {
      CanonIgnoresLater(f, arrived, i, i);
    } else if n - 1 !in arrived {
      CanonInsert(f, arrived, i, n - 1);
    } else {
      CanonInsert(f, arrived, i, n - 1);
      assert f[i].index != f[n - 1].index && f[i].key != f[n - 1].key;
      MergedSwap(Canon(f, arrived, n - 1), f[i], f[n - 1]);
    }
  }

  /** Which identities the canonical tally records. */
  lemma {:induction false} CanonIdentities(f: seq<Slice>, arrived: set<nat>, n: nat)
    requires Separate(f) && n <= |f|
    ensures var t := Canon(f, arrived, n);
            && (forall i: nat :: i in t.slices <==> i < n && i in arrived)
            && (forall i: nat :: i in t.slices ==> t.slices[i] == f[i].key)
            && (forall k :: k in t.executions ==> t.executions[k] < n && t.executions[k] in arrived && f[t.executions[k]].key == k)
  {
    if n > 0 {
      CanonIdentities(f, arrived, n - 1);
    }
  }

  lemma NewKeyIsAbsent(f: seq<Slice>, arrived: set<nat>, i: nat)
    requires Separate(f) && i < |f| && i !in arrived
    ensures i !in Canon(f, arrived, |f|).slices && f[i].key !in Canon(f, arrived, |f|).executions
  {
    CanonIdentities(f, arrived, |f|);
  }

  // ---- Capacity ------------------------------------------------------------------------------

  ghost predicate Below(t: Tally, u: Tally) {
    && t.total <= u.total && t.success <= u.success && t.failure <= u.failure
    && (forall i: nat :: At(t.latency, i) <= At(u.latency, i))
    && (forall kind :: Count(t.errors, kind) <= Count(u.errors, kind))
    && t.errors.Keys <= u.errors.Keys
  }

  lemma {:induction false} CanonMonotone(f: seq<Slice>, a: set<nat>, b: set<nat>, n: nat)
    requires n <= |f| && a <= b
    ensures Below(Canon(f, a, n), Canon(f, b, n))
  {
    if n > 0 {
      CanonMonotone(f, a, b, n - 1);
    }
  }

  ghost predicate KindsCounted(t: Tally) {
    t.kinds == |t.errors|
  }

  lemma MergeCountsKinds(t: Tally, x: Slice)
    requires KindsCounted(t)
    ensures KindsCounted(Merged(t, x))
  {
    KindsGrow(t.errors, x.errors);
  }

  lemma {:induction false} CanonKinds(f: seq<Slice>, arrived: set<nat>, n: nat, t: Tally)
    requires n <= |f| && t == Canon(f, arrived, n)
    ensures KindsCounted(t)
    decreases n
  {
    if n == 0 {
      assert KindsCounted(EMPTY_TALLY);
    } else {
      var before := Canon(f, arrived, n - 1);
      CanonKinds(f, arrived, n - 1, before);
      if n - 1 in arrived {
        MergeCountsKinds(before, f[n - 1]);
      }
    }
  }

  /** The whole family fits the configured bounds. */
  ghost predicate Affordable(cfg: Config, f: seq<Slice>)
  {
    var all := Canon(f, Upto(|f|), |f|);
    && all.total <= MAX_EXACT && all.success <= MAX_EXACT && all.failure <= MAX_EXACT
    && (forall i: nat :: At(all.latency, i) <= MAX_EXACT)
    && (forall kind :: Count(all.errors, kind) <= MAX_EXACT)
    && all.kinds <= cfg.maxKinds
  }

  /** Any valid one-slice result is such a family, and fits whenever it fits on its own. */
  lemma OneSliceFamily(cfg: Config, x: Slice)
    requires ValidSlice(x) && x.index == 0 && x.meta.expected == 1 && x.bounds != [] && Fits(EMPTY_TALLY, x)
    requires NewKinds(x.errors.Keys, {}) <= cfg.maxKinds
    ensures Family([x]) && Affordable(cfg, [x])
  {
    CanonOfNothing([x], 1);
    CanonInsert([x], {}, 0, 1);
    assert Upto(1) == {} + {0};
    assert EMPTY_TALLY.errors.Keys == {};
    AddNothing(x.counts);
    SameCounts(AddErrors(map[], x.errors), x.errors);
  }

  lemma NextSliceFits(cfg: Config, f: seq<Slice>, arrived: set<nat>, i: nat)
    requires Family(f) && Affordable(cfg, f) && arrived <= Upto(|f|) && i < |f| && i !in arrived
    ensures var t := Canon(f, arrived, |f|);
            Fits(t, f[i]) && t.kinds + NewKinds(f[i].errors.Keys, t.errors.Keys) <= cfg.maxKinds
  {
    var t := Canon(f, arrived, |f|);
    var all := Canon(f, Upto(|f|), |f|);
    CanonInsert(f, arrived, i, |f|);
    CanonMonotone(f, arrived + {i}, Upto(|f|), |f|);
    CanonKinds(f, arrived + {i}, |f|, Canon(f, arrived + {i}, |f|));
    CanonKinds(f, Upto(|f|), |f|, Canon(f, Upto(|f|), |f|));
    var t' := Merged(t, f[i]);
    assert |t'.errors| == |t'.errors.Keys| && |all.errors| == |all.errors.Keys|;
    SubsetSize(t'.errors.Keys, all.errors.Keys);
    forall j | 0 <= j < |f[i].counts| ensures At(t.latency, j) + f[i].counts[j] <= MAX_EXACT {
      assert At(t'.latency, j) == At(t.latency, j) + At(f[i].counts, j) <= At(all.latency, j);
    }
    forall kind | kind in f[i].errors ensures Count(t.errors, kind) + f[i].errors[kind] <= MAX_EXACT {
      assert Count(t'.errors, kind) == Count(t.errors, kind) + Count(f[i].errors, kind) <= Count(all.errors, kind);
    }
  }

  // ---- Any delivery schedule -------------------------------------------------------------------

  /** Operations that concern this run only, with room in the active index, and no cancellation. */
  ghost predicate Schedule(cfg: Config, f: seq<Slice>, op: Op)
    requires Family(f)
  {
    match op
    case Ingest(x, others) => x in f && others + 1 < cfg.maxActive
    case Register(meta, _, _, _) => meta == f[0].meta
    case FinalizeRun(status) => !status.Cancelled?
    case _ => true
  }

  function Arrived(ops: seq<Op>): set<nat> {
    if ops == [] then {}
    else
      var op := ops[|ops| - 1];
      Arrived(ops[..|ops| - 1]) + (if op.Ingest? then {op.x.index} else {})
  }

  /** The record was never dropped and the clock stays in range. */
  ghost predicate Undisturbed(cfg: Config, ops: seq<Op>) {
    forall n :: 0 <= n <= |ops| ==> Quiet(cfg, Exec(cfg, START, ops[..n]))
  }

  ghost predicate Quiet(cfg: Config, w: World) {
    w.now + cfg.partialTimeout <= MAX_EXACT && Evicted(w.slot, w.now) == w.slot
  }

  ghost predicate DeliveryInv(f: seq<Slice>, s: Slot, arrived: set<nat>)
    requires Family(f)
  {
    && arrived <= Upto(|f|)
    && (s.run.None? ==> arrived == {})
    && (s.run.Some? ==>
          var r := s.run.value;
          && r.meta == f[0].meta && !r.status.Cancelled?
          && (r.bounds == f[0].bounds || (r.bounds == [] && arrived == {}))
          && r.tally == Canon(f, arrived, |f|))
  }

  lemma {:induction false} CanonOfNothing(f: seq<Slice>, n: nat)
    requires n <= |f|
    ensures Canon(f, {}, n) == EMPTY_TALLY
  {
    if n > 0 {
      CanonOfNothing(f, n - 1);
    }
  }

  lemma FirstDelivery(cfg: Config, f: seq<Slice>, s: Slot, i: nat, now: nat, others: nat)
    requires Family(f) && Affordable(cfg, f) && i < |f| && s.run.None?
    requires now + cfg.partialTimeout <= MAX_EXACT && others + 1 < cfg.maxActive
    ensures var (s', reply) := IngestStep(s, f[i], now, cfg, others);
            Merges(reply) && DeliveryInv(f, s', {i})
  {
    var x := f[i];
    CanonOfNothing(f, |f|);
    NextSliceFits(cfg, f, {}, i);
    CanonInsert(f, {}, i, |f|);
    assert {} + {i} == {i};
    AbsorbStores(cfg, Pruned(s, now), NewRun(x.meta, x.bounds, now, now + cfg.partialTimeout), x, now);
    AbsorbStatus(cfg, Pruned(s, now), NewRun(x.meta, x.bounds, now, now + cfg.partialTimeout), x, now);
  }

  lemma AbsorbStatus(cfg: Config, s: Slot, r: Run, x: Slice, now: nat)
    requires Fits(r.tally, x) && r.tally.kinds + NewKinds(x.errors.Keys, r.tally.errors.Keys) <= cfg.maxKinds
    ensures var (s', reply) := Absorb(s, r, x, now, cfg);
            Merges(reply) && s'.run.Some? && (s'.run.value.status.Complete? || s'.run.value.status == r.status)
  {
  }

  lemma NewSliceMerges(f: seq<Slice>, s: Slot, arrived: set<nat>, i: nat)
    requires Family(f) && i < |f| && s.run.Some? && i !in arrived
    requires DeliveryInv(f, s, arrived) && TallyOk(s) && ControlInv(s.run.value)
    ensures Screen(s.run.value, f[i]).Merge?
  {
    var r := s.run.value;
    NewKeyIsAbsent(f, arrived, i);
    BoundedIdentities(r.meta, r.bounds, r.tally);
    ReceivedIffArrived(f, s, arrived);
    assert i in Upto(|f|);
    if arrived == {} {
      CanonOfNothing(f, |f|);
    }
  }

  lemma NewDelivery(cfg: Config, f: seq<Slice>, s: Slot, arrived: set<nat>, i: nat, now: nat, others: nat)
    requires Family(f) && Affordable(cfg, f) && i < |f| && s.run.Some? && i !in arrived
    requires DeliveryInv(f, s, arrived) && TallyOk(s) && ControlInv(s.run.value)
    requires now + cfg.partialTimeout <= MAX_EXACT
    ensures var (s', reply) := IngestStep(s, f[i], now, cfg, others);
            Merges(reply) && DeliveryInv(f, s', arrived + {i})
  {
    var x := f[i];
    NewSliceMerges(f, s, arrived, i);
    NextSliceFits(cfg, f, arrived, i);
    CanonInsert(f, arrived, i, |f|);
    var noted := Noted(s.run.value, x);
    AbsorbStores(cfg, Pruned(s, now).(run := Some(noted)), noted, x, now);
    AbsorbStatus(cfg, Pruned(s, now).(run := Some(noted)), noted, x, now);
  }

  lemma ReceivedIffArrived(f: seq<Slice>, s: Slot, arrived: set<nat>)
    requires Family(f) && s.run.Some? && DeliveryInv(f, s, arrived) && TallyOk(s)
    ensures s.run.value.tally.received == |arrived| && s.run.value.tally.slices.Keys == arrived
  {
    CanonIdentities(f, arrived, |f|);
    assert s.run.value.tally.slices.Keys == arrived;
    assert |s.run.value.tally.slices| == |s.run.value.tally.slices.Keys|;
  }

  lemma RepeatDelivery(cfg: Config, f: seq<Slice>, s: Slot, arrived: set<nat>, i: nat, now: nat, others: nat)
    requires Family(f) && i < |f| && s.run.Some? && i in arrived
    requires DeliveryInv(f, s, arrived) && TallyOk(s) && now + cfg.partialTimeout <= MAX_EXACT
    ensures var (s', reply) := IngestStep(s, f[i], now, cfg, others);
            reply.Duplicate? && DeliveryInv(f, s', arrived)
  {
    CanonIdentities(f, arrived, |f|);
    assert s.run.value.tally.slices[i] == f[i].key;
    assert Screen(s.run.value, f[i]).Repeat?;
  }

  lemma OtherScriptsKeepDelivery(cfg: Config, f: seq<Slice>, w: World, op: Op, arrived: set<nat>)
    requires Family(f) && DeliveryInv(f, w.slot, arrived) && Schedule(cfg, f, op) && !op.Ingest?
    ensures DeliveryInv(f, Script(cfg, w, op).slot, arrived)
  {
    CanonOfNothing(f, |f|);
    var s' := Script(cfg, w, op).slot;
    if s'.run.Some? {
      OnlyIngestMerges(cfg, w, op);
      NeverCancelled(cfg, w, op);
    } else {
      OnlyExpiryDrops(cfg, w, op);
    }
  }

  lemma NeverCancelled(cfg: Config, w: World, op: Op)
    requires Script(cfg, w, op).slot.run.Some? && !op.Ingest?
    requires op.FinalizeRun? ==> !op.status.Cancelled?
    requires w.slot.run.Some? ==> !w.slot.run.value.status.Cancelled?
    ensures !Script(cfg, w, op).slot.run.value.status.Cancelled?
    ensures op.Register? && w.slot.run.None? ==> Script(cfg, w, op).slot.run.value.meta == op.meta
    ensures !op.Register? ==> w.slot.run.Some?
  {
  }

  lemma DeliverySlice(cfg: Config, f: seq<Slice>, s: Slot, arrived: set<nat>, i: nat, now: nat, others: nat)
    requires Family(f) && Affordable(cfg, f) && i < |f| && SlotInv(cfg, s, now) && DeliveryInv(f, s, arrived)
    requires now + cfg.partialTimeout <= MAX_EXACT && others + 1 < cfg.maxActive
    ensures DeliveryInv(f, IngestStep(s, f[i], now, cfg, others).0, arrived + {i})
  {
    var s' := IngestStep(s, f[i], now, cfg, others).0;
    if s.run.None? {
      FirstDelivery(cfg, f, s, i, now, others);
      assert arrived + {i} == {i};
    } else if i in arrived {
      RepeatDelivery(cfg, f, s, arrived, i, now, others);
      assert arrived + {i} == arrived;
    } else {
      NewDelivery(cfg, f, s, arrived, i, now, others);
    }
  }

  lemma DeliveryStep(cfg: Config, f: seq<Slice>, w: World, op: Op, arrived: set<nat>)
    requires Family(f) && Affordable(cfg, f) && Schedule(cfg, f, op) && SlotInv(cfg, w.slot, w.now)
    requires DeliveryInv(f, w.slot, arrived) && w.now + cfg.partialTimeout <= MAX_EXACT
    ensures DeliveryInv(f, Script(cfg, w, op).slot, arrived + (if op.Ingest? then {op.x.index} else {}))
  {
    if op.Ingest? {
      var i :| 0 <= i < |f| && f[i] == op.x;
      assert op.x.index == i;
      DeliverySlice(cfg, f, w.slot, arrived, i, w.now, op.others);
    } else {
      OtherScriptsKeepDelivery(cfg, f, w, op, arrived);
      assert arrived + {} == arrived;
    }
  }

  /**
   However the results of a run are ordered, repeated and interleaved with registration, timeouts,
   partial finalization and acknowledgements, the record is the canonical merge of what arrived.
   */
  lemma {:induction false} OrderAndRepetitionDoNotMatter(cfg: Config, f: seq<Slice>, ops: seq<Op>)
    requires ValidConfig(cfg) && Family(f) && Affordable(cfg, f)
    requires LegalRun(cfg, START, ops) && Undisturbed(cfg, ops)
    requires forall n :: 0 <= n < |ops| ==> Schedule(cfg, f, ops[n])
    ensures DeliveryInv(f, Exec(cfg, START, ops).slot, Arrived(ops))
  {
    if ops != [] {
      var init, op := ops[..|ops| - 1], ops[|ops| - 1];
      LegalPrefix(cfg, START, ops);
      assert Undisturbed(cfg, init) by {
        forall n | 0 <= n <= |init| ensures Quiet(cfg, Exec(cfg, START, init[..n])) {
          assert init[..n] == ops[..n];
        }
      }
      OrderAndRepetitionDoNotMatter(cfg, f, init);
      RunKeepsInv(cfg, init);
      assert Quiet(cfg, Exec(cfg, START, ops[..|init|]));
      DeliveryStep(cfg, f, Live(Exec(cfg, START, init)), op, Arrived(init));
    }
  }

  /** Two schedules that delivered the same slices end with the same merged content. */
  lemma SchedulesAgree(cfg: Config, f: seq<Slice>, ops: seq<Op>, ops': seq<Op>)
    requires ValidConfig(cfg) && Family(f) && Affordable(cfg, f) && Arrived(ops) == Arrived(ops') != {}
    requires LegalRun(cfg, START, ops) && Undisturbed(cfg, ops)
    requires LegalRun(cfg, START, ops') && Undisturbed(cfg, ops')
    requires forall n :: 0 <= n < |ops| ==> Schedule(cfg, f, ops[n])
    requires forall n :: 0 <= n < |ops'| ==> Schedule(cfg, f, ops'[n])
    ensures var s, s' := Exec(cfg, START, ops).slot, Exec(cfg, START, ops').slot;
            && s.run.Some? && s'.run.Some? && s.run.value.tally == s'.run.value.tally
            && (s.run.value.status.Complete? <==> s'.run.value.status.Complete?)
            && (s.run.value.status.Complete? <==> Arrived(ops) == Upto(|f|))
  {
    OrderAndRepetitionDoNotMatter(cfg, f, ops);
    OrderAndRepetitionDoNotMatter(cfg, f, ops');
    RunKeepsInv(cfg, ops);
    RunKeepsInv(cfg, ops');
    var s := Exec(cfg, START, ops).slot;
    BoundedIdentities(s.run.value.meta, s.run.value.bounds, s.run.value.tally);
    ReceivedIffArrived(f, s, Arrived(ops));
  }
}
