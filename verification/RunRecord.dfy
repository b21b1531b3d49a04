/**
 The durable record of one distributed run, as the Redis aggregation scripts keep it: the run hash,
 its expiry, and its entries in the deadline, outbox and active-run indexes.

 Every script is one atomic function of the slot (`...Step`); `RunHash` performs the same scripts
 field by field. Times are whole milliseconds of the Redis clock.
 */
module RunRecord {
  import opened Common
  import opened Histogram

  /** Largest integer Redis Lua represents exactly, 2^53 - 1. */
  const MAX_EXACT: nat := 9007199254740991

  datatype Config = Config(retention: nat, partialTimeout: nat, maxKinds: nat, maxActive: nat, maxLoad: nat)

  /** The relations that configuration loading enforces. */
  predicate ValidConfig(cfg: Config) {
    && 0 < cfg.partialTimeout && 0 < cfg.maxKinds && 0 < cfg.maxActive
    && cfg.maxLoad + cfg.partialTimeout < cfg.retention <= MAX_EXACT
  }

  datatype Meta = Meta(scenario: string, run: string, version: nat, expected: nat)

  /** A validated, normalized slice result: bounds and counts of its histogram, errors by kind. */
  datatype Slice = Slice(
    meta: Meta, index: nat, key: string,
    total: nat, success: nat, failure: nat,
    bounds: seq<nat>, counts: seq<nat>, errors: map<string, nat>)

  datatype Status = Open | Partial | TimedOut | Cancelled | Complete

  /** The merged contribution of the slices accepted so far. */
  datatype Tally = Tally(
    received: nat, total: nat, success: nat, failure: nat,
    kinds: nat, latency: seq<nat>, errors: map<string, nat>,
    slices: map<nat, string>, executions: map<string, nat>)

  datatype Run = Run(
    meta: Meta, bounds: seq<nat>, status: Status, tally: Tally,
    firstAt: nat, lastAt: nat, deadlineAt: nat, finalizedAt: nat,
    revision: nat, pending: nat, acked: nat)

  /** `expireAt` is None for a persisted key; the three indexes hold this run's score, if any. */
  datatype Slot = Slot(run: Option<Run>, expireAt: Option<nat>,
                       deadline: Option<nat>, outbox: Option<nat>, active: Option<nat>)

  const EMPTY_TALLY := Tally(0, 0, 0, 0, 0, [], map[], map[], map[])
  const EMPTY_SLOT := Slot(None, None, None, None, None)

  datatype IngestReply =
    | Accepted | LateAccepted | Duplicate | Completed | LateCompleted
    | Inconsistent | InvalidState | KindCapacity | ActiveCapacity | CounterOverflow

  predicate Merges(reply: IngestReply) {
    reply.Accepted? || reply.LateAccepted? || reply.Completed? || reply.LateCompleted?
  }

  // ---- Merging a slice -----------------------------------------------------------------------

  function Count(m: map<string, nat>, kind: string): nat {
    if kind in m then m[kind] else 0
  }

  function AddErrors(m: map<string, nat>, e: map<string, nat>): (r: map<string, nat>)
    ensures r.Keys == m.Keys + e.Keys
    ensures forall kind :: Count(r, kind) == Count(m, kind) + Count(e, kind)
  {
    map kind | kind in m.Keys + e.Keys :: Count(m, kind) + Count(e, kind)
  }

  /** How many of `kinds` are not stored yet, counted one by one. */
  ghost function NewKinds(kinds: set<string>, stored: set<string>): nat
    decreases |kinds|
  {
    if kinds == {} then 0
    else
      var kind :| kind in kinds;
      (if kind in stored then 0 else 1) + NewKinds(kinds - {kind}, stored)
  }

  lemma {:induction false} NewKindsIsDifference(kinds: set<string>, stored: set<string>)
    ensures NewKinds(kinds, stored) == |kinds - stored|
    decreases |kinds|
  {
    if kinds == {} {
      assert kinds - stored == {};
    } else {
      var kind :| kind in kinds &&
                  NewKinds(kinds, stored) == (if kind in stored then 0 else 1) + NewKinds(kinds - {kind}, stored);
      NewKindsIsDifference(kinds - {kind}, stored);
      if kind in stored {
        assert kinds - {kind} - stored == kinds - stored;
      } else {
        assert kinds - {kind} - stored == (kinds - stored) - {kind};
      }
    }
  }

  ghost function Merged(t: Tally, x: Slice): Tally {
    Tally(t.received + 1, t.total + x.total, t.success + x.success, t.failure + x.failure,
          t.kinds + NewKinds(x.errors.Keys, t.errors.Keys),
          AddCounts(t.latency, x.counts), AddErrors(t.errors, x.errors),
          t.slices[x.index := x.key], t.executions[x.key := x.index])
  }

  /** Every counter the merge would touch stays exact. */
  predicate Fits(t: Tally, x: Slice) {
    && t.total + x.total <= MAX_EXACT
    && t.success + x.success <= MAX_EXACT
    && t.failure + x.failure <= MAX_EXACT
    && (forall i :: 0 <= i < |x.counts| ==> At(t.latency, i) + x.counts[i] <= MAX_EXACT)
    && (forall kind :: kind in x.errors ==> Count(t.errors, kind) + x.errors[kind] <= MAX_EXACT)
  }

  // ---- Retention and finalization ------------------------------------------------------------

  function Persisted(s: Slot): Slot {
    s.(expireAt := None, active := Some(MAX_EXACT))
  }

  /** refresh_retention: an unacknowledged summary keeps its record for ever. */
  function Retained(s: Slot, now: nat, cfg: Config): Slot
    requires s.run.Some?
  {
    if s.run.value.pending > s.run.value.acked then Persisted(s)
    else s.(expireAt := Some(now + cfg.retention), active := Some(now + cfg.retention))
  }

  /** A new summary revision: out of the deadline index, into the outbox. */
  function Finalized(s: Slot, status: Status, now: nat): Slot
    requires s.run.Some?
  {
    var r := s.run.value;
    s.(run := Some(r.(status := status, finalizedAt := now, revision := r.revision + 1, pending := r.revision + 1)),
       deadline := None, outbox := Some(now))
  }

  function Pruned(s: Slot, now: nat): Slot {
    if s.active.Some? && s.active.value <= now then s.(active := None) else s
  }

  // ---- Ingest --------------------------------------------------------------------------------

  function NewRun(meta: Meta, bounds: seq<nat>, firstAt: nat, deadlineAt: nat): Run {
    Run(meta, bounds, Open, EMPTY_TALLY, firstAt, firstAt, deadlineAt, 0, 0, 0, 0)
  }

  predicate Compatible(r: Run, x: Slice) {
    r.meta == x.meta && (r.bounds == [] || r.bounds == x.bounds)
  }

  /** Unset bounds of a run without slices are taken from the first result, before it is screened. */
  function Noted(r: Run, x: Slice): Run {
    if Compatible(r, x) && r.bounds == [] && r.tally.received == 0 then r.(bounds := x.bounds) else r
  }

  datatype Verdict = Merge | Repeat | Reject(reply: IngestReply)

  function Screen(r: Run, x: Slice): Verdict {
    if !Compatible(r, x) then Reject(Inconsistent)
    else if r.bounds == [] && r.tally.received != 0 then Reject(InvalidState)
    else if x.index in r.tally.slices then
      if r.tally.slices[x.index] == x.key then Repeat else Reject(Inconsistent)
    else if x.key in r.tally.executions then
      if r.tally.executions[x.key] == x.index then Repeat else Reject(Inconsistent)
    else if r.status.Complete? || r.status.Cancelled? then Reject(Inconsistent)
    else if r.tally.received >= r.meta.expected then Reject(InvalidState)
    else Merge
  }

  ghost function WithSlice(r: Run, x: Slice, now: nat): Run {
    r.(tally := Merged(r.tally, x),
       firstAt := if r.firstAt == 0 then now else r.firstAt,
       lastAt := if now > r.lastAt then now else r.lastAt)
  }

  function MergeReply(status: Status, complete: bool): IngestReply {
    if status.Partial? || status.TimedOut? then (if complete then LateCompleted else LateAccepted)
    else if complete then Completed else Accepted
  }

  function Stored(s: Slot, r: Run, complete: bool, now: nat, cfg: Config): Slot {
    var s1 := s.(run := Some(r));
    Retained(if complete then Finalized(s1, Complete, now) else s1, now, cfg)
  }

  /** Merge `x` into record `r` of slot `s`; `r` is new when the slot is empty. */
  ghost function Absorb(s: Slot, r: Run, x: Slice, now: nat, cfg: Config): (Slot, IngestReply) {
    if r.tally.kinds + NewKinds(x.errors.Keys, r.tally.errors.Keys) > cfg.maxKinds then (s, KindCapacity)
    else if !Fits(r.tally, x) then (s, CounterOverflow)
    else
      var complete := r.tally.received + 1 == r.meta.expected;
      var s1 := s.(deadline := if s.run.None? then Some(r.deadlineAt) else s.deadline);
      (Stored(s1, WithSlice(r, x, now), complete, now, cfg), MergeReply(r.status, complete))
  }

  /** `others` is the number of other runs left in the active index. */
  ghost function IngestFirst(s: Slot, x: Slice, now: nat, cfg: Config, others: nat): (Slot, IngestReply) {
    if others + (if s.active.Some? then 1 else 0) >= cfg.maxActive then (s, ActiveCapacity)
    else Absorb(s, NewRun(x.meta, x.bounds, now, now + cfg.partialTimeout), x, now, cfg)
  }

  ghost function IngestNext(s: Slot, r: Run, x: Slice, now: nat, cfg: Config): (Slot, IngestReply) {
    var noted := Noted(r, x);
    var s1 := s.(run := Some(noted));
    match Screen(r, x)
    case Reject(reply) => (s1, reply)
    case Repeat => (Retained(s1, now, cfg), Duplicate)
    case Merge => Absorb(s1, noted, x, now, cfg)
  }

  ghost function IngestStep(s: Slot, x: Slice, now: nat, cfg: Config, others: nat): (Slot, IngestReply) {
    if now + cfg.partialTimeout > MAX_EXACT then (s, InvalidState)
    else match s.run
      case None => IngestFirst(Pruned(s, now), x, now, cfg, others)
      case Some(r) => IngestNext(Pruned(s, now), r, x, now, cfg)
  }

  // ---- Deadline, explicit finalization, acknowledgement, registration ----------------------------

  datatype ExpiryReply = NoRun | NotExpired(retryAfter: nat) | MarkedTimedOut | AlreadyFinalized | BadExpiry

  function Settled(s: Slot): Slot
    requires s.run.Some?
  {
    var s1 := s.(deadline := None);
    if s.run.value.pending > s.run.value.acked then Persisted(s1) else s1
  }

  function ExpireStep(s: Slot, now: nat, cfg: Config): (Slot, ExpiryReply) {
    match s.run
    case None => (s.(deadline := None, outbox := None, active := None), NoRun)
    case Some(r) =>
      if now + cfg.retention > MAX_EXACT then (s, BadExpiry)
      else if !r.status.Open? then (Settled(s), AlreadyFinalized)
      else if now < r.deadlineAt then (s, NotExpired(r.deadlineAt - now))
      else (Persisted(Finalized(s, TimedOut, now)), MarkedTimedOut)
  }

  datatype FinalizeReply = FinalizeMissing | FinalizedNow | FinalizedBefore | BadFinalize

  function FinalizeStep(s: Slot, status: Status, now: nat, cfg: Config): (Slot, FinalizeReply) {
    if !status.Partial? && !status.Cancelled? then (s, BadFinalize)
    else if now + cfg.retention > MAX_EXACT then (s, BadFinalize)
    else
      match s.run
      case None => (s.(deadline := None, outbox := None, active := None), FinalizeMissing)
      case Some(r) =>
        if !r.status.Open? then (Settled(s), FinalizedBefore)
        else (Persisted(Finalized(s, status, now)), FinalizedNow)
  }

  datatype AckReply = AckMissing | Acknowledged | AlreadyAcknowledged | Stale(current: nat) | BadAck

  function Released(s: Slot, now: nat, cfg: Config): Slot {
    s.(outbox := None, expireAt := Some(now + cfg.retention), active := Some(now + cfg.retention))
  }

  function AcknowledgeStep(s: Slot, revision: nat, now: nat, cfg: Config): (Slot, AckReply) {
    match s.run
    case None => (s.(outbox := None, active := None), AckMissing)
    case Some(r) =>
      if revision < 1 || r.revision < 1 || revision > r.revision then (s, BadAck)
      else if revision < r.revision then
        (s.(run := Some(r.(acked := if revision > r.acked then revision else r.acked))), Stale(r.revision))
      else if r.acked >= revision then
        (if r.pending <= r.acked then Released(s, now, cfg) else s, AlreadyAcknowledged)
      else
        var s1 := s.(run := Some(r.(acked := revision)));
        (if r.pending == revision then Released(s1, now, cfg) else s1, Acknowledged)
  }

  function CleanStep(s: Slot): Slot {
    if s.run.None? || s.run.value.pending <= s.run.value.acked then s.(outbox := None) else s
  }

  datatype RegisterReply = Registered | RegisteredBefore | RegistrationConflict | RegistrationCapacity

  /** `deadlineAt` is the scheduled start plus the load duration plus the partial timeout. */
  function RegisterStep(s: Slot, meta: Meta, deadlineAt: nat, now: nat, cfg: Config, others: nat): (Slot,
                        RegisterReply) {
    if meta.expected < 1 || deadlineAt > MAX_EXACT then (s, RegistrationConflict)
    else
      var s1 := Pruned(s, now);
      match s1.run
      case Some(r) =>
        if r.meta != meta then (s1, RegistrationConflict) else (Retained(s1, now, cfg), RegisteredBefore)
      case None =>
        if others + (if s1.active.Some? then 1 else 0) >= cfg.maxActive then (s1, RegistrationCapacity)
        else
          (Retained(s1.(run := Some(NewRun(meta, [], 0, deadlineAt)), deadline := Some(deadlineAt)), now, cfg), Registered)
  }

  /** Redis drops an expired key; index entries stay behind. */
  function Evicted(s: Slot, now: nat): Slot {
    if s.expireAt.Some? && s.expireAt.value < now then s.(run := None, expireAt := None) else s
  }

  /** The deadline scan returns the run when its score is not in the future. */
  predicate Due(s: Slot, now: nat) {
    s.deadline.Some? && s.deadline.value <= now
  }

  // ---- Decoding a summary --------------------------------------------------------------------

  datatype Summary = Summary(
    meta: Meta, status: Status, received: nat, missing: set<nat>,
    total: nat, success: nat, failure: nat,
    histogram: seq<Bucket>, errors: map<string, nat>, firstAt: nat, finalizedAt: nat)

  /** summary_from_snapshot, with every consistency check it performs. */
  function SummaryOf(r: Run): Result<Summary> {
    var t := r.tally;
    if r.status.Open? || t.received > r.meta.expected then Err
    else if r.status.Complete? && t.received != r.meta.expected then Err
    else if !r.status.Complete? && t.received == r.meta.expected then Err
    else if exists i :: i in t.slices && i >= r.meta.expected then Err
    else if |t.slices| != t.received then Err
    else if r.bounds != [] && !StrictlyIncreasing(r.bounds) then Err
    else if |r.bounds| > |t.latency| then Err
    else if |t.errors| != t.kinds || t.success + t.failure != t.total then Err
    else
      var histogram := Zip(r.bounds, t.latency[..|r.bounds|]);
      if histogram != [] && Sum(Counts(histogram)) != t.total then Err
      else Ok(Summary(r.meta, r.status, t.received, Upto(r.meta.expected) - t.slices.Keys,
                      t.total, t.success, t.failure, histogram, t.errors, r.firstAt, r.finalizedAt))
  }

  datatype DurableSummary = DurableSummary(revision: nat, pending: bool, summary: Summary)

  /** load_summary: nothing for an absent or open run. */
  function LoadSummary(s: Slot): Result<Option<DurableSummary>> {
    if s.run.None? || s.run.value.status.Open? then Ok(None)
    else
      var r := s.run.value;
      if r.revision == 0 || r.pending > r.revision || r.acked > r.revision then Err
      else match SummaryOf(r)
        case Err => Err
        case Ok(summary) => Ok(Some(DurableSummary(r.revision, r.pending > r.acked, summary)))
  }

  // ---- The scripts, field by field -----------------------------------------------------------

  method CountAbsent<T(==)>(stored: set<T>, incoming: set<T>) returns (n: nat)
    ensures n == |incoming - stored|
  {
    n := 0;
    var left := incoming;
    while left != {}
      invariant left <= incoming
      invariant n + |left - stored| == |incoming - stored|
    {
      var kind :| kind in left;
      if kind !in stored {
        assert left - {kind} - stored == (left - stored) - {kind};
        n := n + 1;
      } else {
        assert left - {kind} - stored == left - stored;
      }
      left := left - {kind};
    }
  }

  method CountersFit(t: Tally, x: Slice) returns (ok: bool)
    ensures ok <==> Fits(t, x)
  {
    if t.total + x.total > MAX_EXACT || t.success + x.success > MAX_EXACT || t.failure + x.failure > MAX_EXACT {
      return false;
    }
    for i := 0 to |x.counts|
      invariant forall j :: 0 <= j < i ==> At(t.latency, j) + x.counts[j] <= MAX_EXACT
    {
      if At(t.latency, i) + x.counts[i] > MAX_EXACT {
        return false;
      }
    }
    var left := x.errors.Keys;
    while left != {}
      invariant left <= x.errors.Keys
      invariant forall kind :: kind in x.errors && kind !in left ==> Count(t.errors, kind) + x.errors[kind] <= MAX_EXACT
    {
      var kind :| kind in left;
      if Count(t.errors, kind) + x.errors[kind] > MAX_EXACT {
        return false;
      }
      left := left - {kind};
    }
    return true;
  }

  /** One HINCRBY per bucket. */
  method IncrementBuckets(latency: seq<nat>, counts: seq<nat>) returns (r: seq<nat>)
    ensures r == AddCounts(latency, counts)
  {
    r := latency;
    for i := 0 to |counts|
      invariant |r| == Max(|latency|, i)
      invariant forall j :: 0 <= j < |r| ==> r[j] == At(latency, j) + (if j < i then counts[j] else 0)
    {
      r := if i < |r| then r[i := r[i] + counts[i]] else r + [counts[i]];
    }
    ghost var sum := AddCounts(latency, counts);
    assert forall j :: 0 <= j < |sum| ==> sum[j] == At(sum, j);
  }

  lemma SameCounts(m: map<string, nat>, n: map<string, nat>)
    requires m.Keys == n.Keys
    requires forall kind :: Count(m, kind) == Count(n, kind)
    ensures m == n
  {
    forall kind | kind in m ensures m[kind] == n[kind] {
      assert Count(m, kind) == Count(n, kind);
    }
  }

  /** One HINCRBY per error kind. */
  method IncrementErrors(errors: map<string, nat>, incoming: map<string, nat>) returns (r: map<string, nat>)
    ensures r == AddErrors(errors, incoming)
  {
    r := errors;
    var left := incoming.Keys;
    while left != {}
      invariant left <= incoming.Keys
      invariant r.Keys == errors.Keys + (incoming.Keys - left)
      invariant forall kind :: Count(r, kind) == Count(errors, kind) + (if kind in left then 0 else Count(incoming, kind))
    {
      var kind :| kind in left;
      r := r[kind := Count(r, kind) + incoming[kind]];
      left := left - {kind};
    }
    SameCounts(r, AddErrors(errors, incoming));
  }

  method MergeTally(t: Tally, x: Slice) returns (r: Tally)
    ensures r == Merged(t, x)
  {
    var latency := IncrementBuckets(t.latency, x.counts);
    var added := CountAbsent(t.errors.Keys, x.errors.Keys);
    NewKindsIsDifference(x.errors.Keys, t.errors.Keys);
    var errors := IncrementErrors(t.errors, x.errors);
    r := Tally(t.received + 1, t.total + x.total, t.success + x.success, t.failure + x.failure,
               t.kinds + added, latency, errors, t.slices[x.index := x.key], t.executions[x.key := x.index]);
  }

  class RunHash {
    var run: Option<Run>
    var expireAt: Option<nat>
    var deadline: Option<nat>
    var outbox: Option<nat>
    var active: Option<nat>

    function Value(): Slot
      reads this
    {
      Slot(run, expireAt, deadline, outbox, active)
    }

    constructor ()
      ensures Value() == EMPTY_SLOT
    {
      run, expireAt, deadline, outbox, active := None, None, None, None, None;
    }

    method PruneActive(now: nat)
      modifies this`active
      ensures Value() == Pruned(old(Value()), now)
    {
      if active.Some? && active.value <= now {
        active := None;
      }
    }

    method RefreshRetention(now: nat, cfg: Config)
      requires run.Some?
      modifies this`expireAt, this`active
      ensures Value() == Retained(old(Value()), now, cfg)
    {
      if run.value.pending > run.value.acked {
        expireAt := None;
        active := Some(MAX_EXACT);
      } else {
        expireAt := Some(now + cfg.retention);
        active := Some(now + cfg.retention);
      }
    }

    method Finalize(status: Status, now: nat)
      requires run.Some?
      modifies this
      ensures Value() == Finalized(old(Value()), status, now)
    {
      var revision := run.value.revision + 1;
      run := Some(run.value.(status := status, finalizedAt := now, revision := revision, pending := revision));
      deadline := None;
      outbox := Some(now);
    }

    method Store(r: Run, complete: bool, now: nat, cfg: Config)
      modifies this
      ensures Value() == Stored(old(Value()), r, complete, now, cfg)
    {
      run := Some(r);
      RefreshRetention(now, cfg);
      if complete {
        Finalize(Complete, now);
        RefreshRetention(now, cfg);
      }
    }

    method Merge(r: Run, x: Slice, now: nat, cfg: Config) returns (reply: IngestReply)
      modifies this
      ensures (Value(), reply) == Absorb(old(Value()), r, x, now, cfg)
    {
      var additional := CountAbsent(r.tally.errors.Keys, x.errors.Keys);
      NewKindsIsDifference(x.errors.Keys, r.tally.errors.Keys);
      if r.tally.kinds + additional > cfg.maxKinds {
        return KindCapacity;
      }
      var fits := CountersFit(r.tally, x);
      if !fits {
        return CounterOverflow;
      }
      if run.None? {
        deadline := Some(r.deadlineAt);
      }
      var tally := MergeTally(r.tally, x);
      var merged := r.(tally := tally,
                       firstAt := if r.firstAt == 0 then now else r.firstAt,
                       lastAt := if now > r.lastAt then now else r.lastAt);
      Store(merged, tally.received == r.meta.expected, now, cfg);
      reply := MergeReply(r.status, tally.received == r.meta.expected);
    }

    method Ingest(x: Slice, now: nat, cfg: Config, others: nat) returns (reply: IngestReply)
      modifies this
      ensures (Value(), reply) == IngestStep(old(Value()), x, now, cfg, others)
    {
      if now + cfg.partialTimeout > MAX_EXACT {
        return InvalidState;
      }
      PruneActive(now);
      if run.None? {
        if others + (if active.Some? then 1 else 0) >= cfg.maxActive {
          return ActiveCapacity;
        }
        reply := Merge(NewRun(x.meta, x.bounds, now, now + cfg.partialTimeout), x, now, cfg);
        return;
      }
      var r := run.value;
      if !Compatible(r, x) {
        return Inconsistent;
      }
      if r.bounds == [] {
        if r.tally.received != 0 {
          return InvalidState;
        }
        r := r.(bounds := x.bounds);
        run := Some(r);
      }
      if x.index in r.tally.slices {
        if r.tally.slices[x.index] == x.key {
          RefreshRetention(now, cfg);
          return Duplicate;
        }
        return Inconsistent;
      }
      if x.key in r.tally.executions {
        if r.tally.executions[x.key] == x.index {
          RefreshRetention(now, cfg);
          return Duplicate;
        }
        return Inconsistent;
      }
      if r.status.Complete? || r.status.Cancelled? {
        return Inconsistent;
      }
      if r.tally.received >= r.meta.expected {
        return InvalidState;
      }
      reply := Merge(r, x, now, cfg);
    }

    method Settle()
      requires run.Some?
      modifies this
      ensures Value() == Settled(old(Value()))
    {
      deadline := None;
      if run.value.pending > run.value.acked {
        expireAt := None;
        active := Some(MAX_EXACT);
      }
    }

    method MarkExpired(now: nat, cfg: Config) returns (reply: ExpiryReply)
      modifies this
      ensures (Value(), reply) == ExpireStep(old(Value()), now, cfg)
    {
      if run.None? {
        deadline, outbox, active := None, None, None;
        return NoRun;
      }
      if now + cfg.retention > MAX_EXACT {
        return BadExpiry;
      }
      if !run.value.status.Open? {
        Settle();
        return AlreadyFinalized;
      }
      if now < run.value.deadlineAt {
        return NotExpired(run.value.deadlineAt - now);
      }
      Finalize(TimedOut, now);
      expireAt := None;
      active := Some(MAX_EXACT);
      return MarkedTimedOut;
    }

    method FinalizeRun(status: Status, now: nat, cfg: Config) returns (reply: FinalizeReply)
      modifies this
      ensures (Value(), reply) == FinalizeStep(old(Value()), status, now, cfg)
    {
      if !status.Partial? && !status.Cancelled? {
        return BadFinalize;
      }
      if now + cfg.retention > MAX_EXACT {
        return BadFinalize;
      }
      if run.None? {
        deadline, outbox, active := None, None, None;
        return FinalizeMissing;
      }
      if !run.value.status.Open? {
        Settle();
        return FinalizedBefore;
      }
      Finalize(status, now);
      expireAt := None;
      active := Some(MAX_EXACT);
      return FinalizedNow;
    }

    method Acknowledge(revision: nat, now: nat, cfg: Config) returns (reply: AckReply)
      modifies this
      ensures (Value(), reply) == AcknowledgeStep(old(Value()), revision, now, cfg)
    {
      if run.None? {
        outbox, active := None, None;
        return AckMissing;
      }
      var r := run.value;
      if revision < 1 || r.revision < 1 || revision > r.revision {
        return BadAck;
      }
      if revision < r.revision {
        if revision > r.acked {
          run := Some(r.(acked := revision));
        }
        return Stale(r.revision);
      }
      reply := AlreadyAcknowledged;
      var release := r.pending <= r.acked;
      if r.acked < revision {
        run := Some(r.(acked := revision));
        release := r.pending == revision;
        reply := Acknowledged;
      }
      if release {
        outbox := None;
        expireAt := Some(now + cfg.retention);
        active := Some(now + cfg.retention);
      }
    }

    method Register(meta: Meta, deadlineAt: nat, now: nat, cfg: Config, others: nat) returns (reply: RegisterReply)
      modifies this
      ensures (Value(), reply) == RegisterStep(old(Value()), meta, deadlineAt, now, cfg, others)
    {
      if meta.expected < 1 || deadlineAt > MAX_EXACT {
        return RegistrationConflict;
      }
      PruneActive(now);
      if run.Some? {
        if run.value.meta != meta {
          return RegistrationConflict;
        }
        RefreshRetention(now, cfg);
        return RegisteredBefore;
      }
      if others + (if active.Some? then 1 else 0) >= cfg.maxActive {
        return RegistrationCapacity;
      }
      run := Some(NewRun(meta, [], 0, deadlineAt));
      deadline := Some(deadlineAt);
      RefreshRetention(now, cfg);
      return Registered;
    }
  }
}
