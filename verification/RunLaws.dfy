/**
 What every sequence of aggregation scripts keeps: the shape of the run record, conservation of the
 accepted slices, the outbox and retention indexes, and discovery of overdue runs.
 */
module RunLaws {
  import opened Common
  import opened Histogram
  import opened RunRecord

  // ---- Sums over error maps ------------------------------------------------------------------

  ghost function MapSum(m: map<string, nat>): nat
    decreases |m|
  {
    if m == map[] then 0 else var k :| k in m; m[k] + MapSum(m - {k})
  }

  lemma {:induction false} MapSumRemove(m: map<string, nat>, k: string)
    requires k in m
    ensures MapSum(m) == m[k] + MapSum(m - {k})
    decreases |m|
  {
    var k0 :| k0 in m && MapSum(m) == m[k0] + MapSum(m - {k0});
    if k0 != k {
      MapSumRemove(m - {k0}, k);
      MapSumRemove(m - {k}, k0);
      assert m - {k0} - {k} == m - {k} - {k0};
    }
  }

  lemma AddErrorsAway(m: map<string, nat>, e: map<string, nat>, k: string)
    requires k in e
    ensures AddErrors(m, e) - {k} == AddErrors(m, e - {k}) - {k}
  {
    var a, b := AddErrors(m, e), AddErrors(m, e - {k});
    forall j | j in a && j != k ensures a[j] == b[j] {
      assert a[j] == Count(a, j) && b[j] == Count(b, j);
    }
  }

  lemma AddOneKind(m: map<string, nat>, e: map<string, nat>, k: string)
    requires k in e
    ensures MapSum(AddErrors(m, e)) == MapSum(AddErrors(m, e - {k})) + e[k]
  {
    var sum, rest := AddErrors(m, e), AddErrors(m, e - {k});
    AddErrorsAway(m, e, k);
    MapSumRemove(sum, k);
    assert sum[k] == Count(sum, k) == Count(m, k) + e[k];
    if k in m {
      MapSumRemove(rest, k);
      assert rest[k] == Count(rest, k);
    } else {
      assert rest - {k} == rest;
    }
  }

  lemma {:induction false} MapSumAdd(m: map<string, nat>, e: map<string, nat>)
    ensures MapSum(AddErrors(m, e)) == MapSum(m) + MapSum(e)
    decreases |e|
  {
    if e == map[] {
      SameCounts(AddErrors(m, e), m);
    } else {
      var k :| k in e;
      MapSumAdd(m, e - {k});
      MapSumRemove(e, k);
      AddOneKind(m, e, k);
    }
  }

  // ---- Valid slices --------------------------------------------------------------------------

  /** What contract validation and normalization establish of a slice before any script sees it. */
  ghost predicate ValidSlice(x: Slice) {
    && x.index < x.meta.expected
    && x.success + x.failure == x.total <= MAX_EXACT
    && |x.bounds| == |x.counts| && StrictlyIncreasing(x.bounds)
    && (x.bounds != [] ==> Sum(x.counts) == x.total)
    && MapSum(x.errors) <= x.failure
    && (x.meta.version >= 2 ==> MapSum(x.errors) == x.failure && (x.total > 0 ==> x.bounds != []))
  }

  // ---- The record ----------------------------------------------------------------------------

  ghost predicate Inverse<A, B>(a: map<A, B>, b: map<B, A>) {
    && (forall i :: i in a ==> a[i] in b && b[a[i]] == i)
    && (forall k :: k in b ==> b[k] in a && a[b[k]] == k)
  }

  lemma InverseExtends<A, B>(a: map<A, B>, b: map<B, A>, i: A, k: B)
    requires Inverse(a, b) && i !in a && k !in b
    ensures Inverse(a[i := k], b[k := i]) && |a[i := k]| == |a| + 1
  {
    assert a[i := k].Keys == a.Keys + {i};
    assert |a[i := k]| == |a[i := k].Keys| && |a| == |a.Keys|;
  }

  /** Slices and executions are recorded as inverse maps. */
  ghost predicate Identities(meta: Meta, t: Tally) {
    && t.received == |t.slices| && t.slices.Keys <= Upto(meta.expected)
    && Inverse(t.slices, t.executions)
  }

  /** Counters agree with each other, however many slices were merged. */
  ghost predicate Conserves(meta: Meta, bounds: seq<nat>, t: Tally) {
    && t.total == t.success + t.failure
    && |t.errors| == t.kinds
    && StrictlyIncreasing(bounds)
    && (t.received == 0 ==> t == EMPTY_TALLY)
    && (t.received > 0 ==> |t.latency| == |bounds|)
    && (t.received > 0 && bounds != [] ==> Sum(t.latency) == t.total)
    && MapSum(t.errors) <= t.failure && (meta.version >= 2 ==> MapSum(t.errors) == t.failure)
  }

  ghost predicate TallyInv(meta: Meta, bounds: seq<nat>, t: Tally) {
    Identities(meta, t) && Conserves(meta, bounds, t)
  }

  ghost predicate ControlInv(r: Run) {
    && r.meta.expected >= 1
    && r.pending == r.revision && r.acked <= r.revision
    && (r.status.Open? ==> r.revision == 0)
    && (r.status.Complete? ==> 1 <= r.revision <= 2)
    && (!r.status.Open? && !r.status.Complete? ==> r.revision == 1)
    && (r.status.Complete? <==> r.tally.received == r.meta.expected)
  }

  ghost predicate IndexInv(cfg: Config, s: Slot, now: nat)
    requires s.run.Some?
  {
    var r := s.run.value;
    && (s.outbox.Some? <==> r.pending > r.acked)
    && (s.expireAt.None? <==> r.pending > r.acked)
    && (r.status.Open? ==>
          s.deadline == Some(r.deadlineAt) && r.deadlineAt < now + cfg.retention && s.expireAt.Some? && r.deadlineAt < s.expireAt.value)
    && (!r.status.Open? ==> s.deadline.None?)
  }

  ghost predicate TallyOk(s: Slot) {
    s.run.Some? ==> TallyInv(s.run.value.meta, s.run.value.bounds, s.run.value.tally)
  }

  /** Status, revisions and indexes agree; no outbox entry is left behind by a dropped record. */
  ghost predicate ControlOk(cfg: Config, s: Slot, now: nat) {
    && (s.run.Some? ==> ControlInv(s.run.value) && IndexInv(cfg, s, now))
    && (s.run.None? ==> s.outbox.None?)
  }

  ghost predicate SlotInv(cfg: Config, s: Slot, now: nat) {
    TallyOk(s) && ControlOk(cfg, s, now)
  }

  lemma BoundedIdentities(meta: Meta, bounds: seq<nat>, t: Tally)
    requires TallyInv(meta, bounds, t)
    ensures t.received <= meta.expected
    ensures t.received == meta.expected <==> t.slices.Keys == Upto(meta.expected)
  {
    SubsetSize(t.slices.Keys, Upto(meta.expected));
  }

  lemma {:induction false} SubsetSize<T>(a: set<T>, b: set<T>)
    requires a <= b
    ensures |a| <= |b| && (|a| == |b| ==> a == b)
    decreases |a|
  {
    if a != {} {
      var x :| x in a;
      SubsetSize(a - {x}, b - {x});
      assert a == (a - {x}) + {x} && b == (b - {x}) + {x};
    }
  }

  lemma KindsGrow(m: map<string, nat>, e: map<string, nat>)
    ensures |AddErrors(m, e)| == |m| + NewKinds(e.Keys, m.Keys)
  {
    NewKindsIsDifference(e.Keys, m.Keys);
    var sum := AddErrors(m, e);
    assert sum.Keys == m.Keys + (e.Keys - m.Keys);
    assert |sum| == |sum.Keys| && |m| == |m.Keys|;
  }

  lemma MergeKeepsIdentities(meta: Meta, t: Tally, x: Slice)
    requires Identities(meta, t) && x.index < meta.expected
    requires x.index !in t.slices && x.key !in t.executions
    ensures Identities(meta, Merged(t, x))
  {
    InverseExtends(t.slices, t.executions, x.index, x.key);
  }

  lemma MergeConserves(meta: Meta, bounds: seq<nat>, t: Tally, x: Slice)
    requires Conserves(meta, bounds, t) && ValidSlice(x)
    requires x.meta == meta && x.bounds == bounds && (bounds == [] ==> t.received == 0)
    ensures Conserves(meta, bounds, Merged(t, x))
  {
    KindsGrow(t.errors, x.errors);
    MapSumAdd(t.errors, x.errors);
    SumAddCounts(t.latency, x.counts);
  }

  lemma MergeKeepsTally(meta: Meta, bounds: seq<nat>, t: Tally, x: Slice)
    requires TallyInv(meta, bounds, t) && ValidSlice(x)
    requires x.meta == meta && x.bounds == bounds && (bounds == [] ==> t.received == 0)
    requires x.index !in t.slices && x.key !in t.executions
    ensures TallyInv(meta, bounds, Merged(t, x))
  {
    MergeKeepsIdentities(meta, t, x);
    MergeConserves(meta, bounds, t, x);
  }

  // ---- Runs of scripts -----------------------------------------------------------------------

  datatype Op =
    | Ingest(x: Slice, others: nat)
    | Expire
    | FinalizeRun(status: Status)
    | Acknowledge(revision: nat)
    | Clean
    | Register(meta: Meta, scheduledAt: nat, load: nat, others: nat)
    | Tick(elapsed: nat)

  /** `accepted` lists, in order, the slices merged into the current record. */
  datatype World = World(slot: Slot, now: nat, accepted: seq<Slice>)

  const START := World(EMPTY_SLOT, 0, [])

  ghost predicate Legal(cfg: Config, w: World, op: Op) {
    match op
    case Ingest(x, others) => ValidSlice(x)
    case Register(meta, scheduledAt, load, others) => meta.expected >= 1 && scheduledAt <= w.now && load <= cfg.maxLoad
    case _ => true
  }

  /** An expired key does not exist for the script that runs next. */
  function Live(w: World): World {
    var s := Evicted(w.slot, w.now);
    w.(slot := s, accepted := if s.run.None? then [] else w.accepted)
  }

  ghost function Script(cfg: Config, w: World, op: Op): World {
    match op
    case Ingest(x, others) =>
      var (s, reply) := IngestStep(w.slot, x, w.now, cfg, others);
      w.(slot := s, accepted := if Merges(reply) then w.accepted + [x] else w.accepted)
    case Expire => w.(slot := ExpireStep(w.slot, w.now, cfg).0)
    case FinalizeRun(status) => w.(slot := FinalizeStep(w.slot, status, w.now, cfg).0)
    case Acknowledge(revision) => w.(slot := AcknowledgeStep(w.slot, revision, w.now, cfg).0)
    case Clean => w.(slot := CleanStep(w.slot))
    case Register(meta, scheduledAt, load, others) =>
      w.(slot := RegisterStep(w.slot, meta, scheduledAt + load + cfg.partialTimeout, w.now, cfg, others).0)
    case Tick(elapsed) => w.(now := w.now + elapsed)
  }

  ghost function Apply(cfg: Config, w: World, op: Op): World {
    Script(cfg, Live(w), op)
  }

  ghost predicate LegalRun(cfg: Config, w: World, ops: seq<Op>) {
    forall n :: 0 <= n < |ops| ==> Legal(cfg, Exec(cfg, w, ops[..n]), ops[n])
  }

  ghost function Exec(cfg: Config, w: World, ops: seq<Op>): World {
    if ops == [] then w else Apply(cfg, Exec(cfg, w, ops[..|ops| - 1]), ops[|ops| - 1])
  }

  lemma LegalPrefix(cfg: Config, w: World, ops: seq<Op>)
    requires LegalRun(cfg, w, ops) && ops != []
    ensures LegalRun(cfg, w, ops[..|ops| - 1])
    ensures Legal(cfg, Exec(cfg, w, ops[..|ops| - 1]), ops[|ops| - 1])
  {
    var init := ops[..|ops| - 1];
    forall n | 0 <= n < |init| ensures Legal(cfg, Exec(cfg, w, init[..n]), init[n]) {
      assert init[..n] == ops[..n];
    }
  }

  // ---- Every script keeps the record well formed -----------------------------------------------

  lemma NotingKeepsTally(r: Run, x: Slice)
    requires TallyInv(r.meta, r.bounds, r.tally) && ValidSlice(x)
    ensures TallyInv(r.meta, Noted(r, x).bounds, r.tally)
  {
  }

  /** A merge stores exactly the incoming slice; any other outcome of Absorb stores nothing. */
  lemma AbsorbStores(cfg: Config, s: Slot, r: Run, x: Slice, now: nat)
    ensures var (s', reply) := Absorb(s, r, x, now, cfg);
            if Merges(reply) then
              && s'.run.Some? && s'.run.value.meta == r.meta && s'.run.value.bounds == r.bounds
              && s'.run.value.tally == Merged(r.tally, x)
            else s'.run == s.run
  {
  }

  lemma AbsorbKeepsTally(cfg: Config, s: Slot, r: Run, x: Slice, now: nat)
    requires TallyOk(s) && TallyInv(r.meta, r.bounds, Merged(r.tally, x))
    ensures TallyOk(Absorb(s, r, x, now, cfg).0)
  {
    AbsorbStores(cfg, s, r, x, now);
  }

  lemma NextKeepsTally(cfg: Config, s: Slot, r: Run, x: Slice, now: nat)
    requires ValidSlice(x) && TallyInv(r.meta, r.bounds, r.tally)
    ensures TallyOk(IngestNext(s, r, x, now, cfg).0)
  {
    NotingKeepsTally(r, x);
    if Screen(r, x).Merge? {
      MergeKeepsTally(r.meta, x.bounds, r.tally, x);
      AbsorbKeepsTally(cfg, s.(run := Some(Noted(r, x))), Noted(r, x), x, now);
    }
  }

  lemma NothingIsTally(meta: Meta, bounds: seq<nat>)
    requires StrictlyIncreasing(bounds)
    ensures TallyInv(meta, bounds, EMPTY_TALLY)
  {
  }

  lemma FirstKeepsTally(cfg: Config, s: Slot, x: Slice, now: nat, others: nat)
    requires ValidSlice(x) && s.run.None?
    ensures TallyOk(IngestFirst(s, x, now, cfg, others).0)
  {
    NothingIsTally(x.meta, x.bounds);
    MergeKeepsTally(x.meta, x.bounds, EMPTY_TALLY, x);
    AbsorbKeepsTally(cfg, s, NewRun(x.meta, x.bounds, now, now + cfg.partialTimeout), x, now);
  }

  lemma IngestKeepsTally(cfg: Config, s: Slot, x: Slice, now: nat, others: nat)
    requires ValidSlice(x) && TallyOk(s)
    ensures TallyOk(IngestStep(s, x, now, cfg, others).0)
  {
    if s.run.Some? {
      NextKeepsTally(cfg, Pruned(s, now), s.run.value, x, now);
    } else {
      FirstKeepsTally(cfg, Pruned(s, now), x, now, others);
    }
  }

  lemma AbsorbKeepsControl(cfg: Config, s: Slot, r: Run, x: Slice, now: nat)
    requires ValidConfig(cfg) && ControlOk(cfg, s, now) && ControlInv(r)
    requires r.tally.received < r.meta.expected && !r.status.Cancelled?
    requires s.run.Some? ==> s.run.value == r
    requires s.run.None? ==> r == NewRun(x.meta, x.bounds, now, now + cfg.partialTimeout)
    ensures ControlOk(cfg, Absorb(s, r, x, now, cfg).0, now)
  {
  }

  lemma NextKeepsControl(cfg: Config, s: Slot, r: Run, x: Slice, now: nat)
    requires ValidConfig(cfg) && ControlOk(cfg, s, now) && s.run == Some(r)
    ensures ControlOk(cfg, IngestNext(s, r, x, now, cfg).0, now)
  {
    if Screen(r, x).Merge? {
      AbsorbKeepsControl(cfg, s.(run := Some(Noted(r, x))), Noted(r, x), x, now);
    }
  }

  lemma IngestKeepsControl(cfg: Config, s: Slot, x: Slice, now: nat, others: nat)
    requires ValidConfig(cfg) && x.meta.expected >= 1 && ControlOk(cfg, s, now)
    ensures ControlOk(cfg, IngestStep(s, x, now, cfg, others).0, now)
  {
    if s.run.Some? {
      NextKeepsControl(cfg, Pruned(s, now), s.run.value, x, now);
    } else {
      AbsorbKeepsControl(cfg, Pruned(s, now), NewRun(x.meta, x.bounds, now, now + cfg.partialTimeout), x, now);
    }
  }

  /** No script but ingest touches what was merged. */
  lemma OnlyIngestMerges(cfg: Config, w: World, op: Op)
    requires !op.Ingest? && Script(cfg, w, op).slot.run.Some?
    ensures w.slot.run.Some? ==>
              var r, r' := w.slot.run.value, Script(cfg, w, op).slot.run.value;
              r'.meta == r.meta && r'.bounds == r.bounds && r'.tally == r.tally
    ensures w.slot.run.None? ==>
              var r' := Script(cfg, w, op).slot.run.value;
              r'.bounds == [] && r'.tally == EMPTY_TALLY
  {
  }

  lemma FinalizationKeepsControl(cfg: Config, w: World, op: Op)
    requires ValidConfig(cfg) && ControlOk(cfg, w.slot, w.now) && (op.Expire? || op.FinalizeRun?)
    ensures ControlOk(cfg, Script(cfg, w, op).slot, w.now)
  {
  }

  lemma RegistrationKeepsControl(cfg: Config, w: World, op: Op)
    requires ValidConfig(cfg) && ControlOk(cfg, w.slot, w.now) && op.Register? && Legal(cfg, w, op)
    ensures ControlOk(cfg, Script(cfg, w, op).slot, w.now)
  {
  }

  lemma PublicationKeepsControl(cfg: Config, w: World, op: Op)
    requires ValidConfig(cfg) && ControlOk(cfg, w.slot, w.now) && (op.Acknowledge? || op.Clean? || op.Tick?)
    ensures ControlOk(cfg, Script(cfg, w, op).slot, Script(cfg, w, op).now)
  {
  }

  lemma EvictionKeepsInv(cfg: Config, w: World)
    requires SlotInv(cfg, w.slot, w.now)
    ensures SlotInv(cfg, Live(w).slot, w.now)
  {
  }

  lemma ApplyKeepsControl(cfg: Config, w: World, op: Op)
    requires ValidConfig(cfg) && ControlOk(cfg, w.slot, w.now) && Legal(cfg, w, op)
    ensures ControlOk(cfg, Script(cfg, w, op).slot, Script(cfg, w, op).now)
  {
    match op
    case Ingest(x, others) => IngestKeepsControl(cfg, w.slot, x, w.now, others);
    case Expire => FinalizationKeepsControl(cfg, w, op);
    case FinalizeRun(_) => FinalizationKeepsControl(cfg, w, op);
    case Register(_, _, _, _) => RegistrationKeepsControl(cfg, w, op);
    case Acknowledge(_) => PublicationKeepsControl(cfg, w, op);
    case Clean => PublicationKeepsControl(cfg, w, op);
    case Tick(_) => PublicationKeepsControl(cfg, w, op);
  }

  lemma ApplyKeepsTally(cfg: Config, w: World, op: Op)
    requires TallyOk(w.slot) && Legal(cfg, w, op)
    ensures TallyOk(Script(cfg, w, op).slot)
  {
    if op.Ingest? {
      IngestKeepsTally(cfg, w.slot, op.x, w.now, op.others);
    } else if Script(cfg, w, op).slot.run.Some? {
      OnlyIngestMerges(cfg, w, op);
    }
  }

  /** Every record reachable by any sequence of scripts is well formed and correctly indexed. */
  lemma {:induction false} RunKeepsInv(cfg: Config, ops: seq<Op>)
    requires ValidConfig(cfg) && LegalRun(cfg, START, ops)
    ensures SlotInv(cfg, Exec(cfg, START, ops).slot, Exec(cfg, START, ops).now)
  {
    if ops != [] {
      LegalPrefix(cfg, START, ops);
      var w, op := Exec(cfg, START, ops[..|ops| - 1]), ops[|ops| - 1];
      RunKeepsInv(cfg, ops[..|ops| - 1]);
      EvictionKeepsInv(cfg, w);
      ApplyKeepsTally(cfg, Live(w), op);
      ApplyKeepsControl(cfg, Live(w), op);
    }
  }
}
