/**
 Dispatch across leader changes: schedulers prepare a window, publish its missing slices to Kafka
 and acknowledge each one in the ledger. Leaders come and go, nodes crash, responses are lost.
 */
module Dispatch {
  import opened Common
  import opened DispatchLedger
  import L = LeaderLease

  type NodeId = nat

  /** The deterministic execution key of one slice of one window. */
  datatype SliceKey = SliceKey(id: WindowId, index: nat, total: nat)

  /** A scheduler's own copies: its lease, its window, and the slices Kafka acknowledged to it. */
  datatype Scheduler = Scheduler(lease: Option<Caller>, window: Option<Window>, published: set<nat>)

  /** `created` and `completed` record every window the ledger ever opened and finished. */
  datatype Sys = Sys(now: int, election: L.Election, schedule: Schedule, kafka: set<SliceKey>,
                     nodes: map<NodeId, Scheduler>, created: seq<WindowId>, completed: seq<WindowId>)

  datatype Action =
    | Tick(elapsed: nat)
    | LeaderExpires
    | Acquire(n: NodeId, token: Token, ttlMs: nat, delivered: bool)
    | Renew(n: NodeId, ttlMs: nat)
    | Relinquish(n: NodeId)
    | Prepare(n: NodeId, spec: Spec, delivered: bool)
    | Publish(n: NodeId, slice: nat, acked: bool)
    | Ack(n: NodeId, slice: nat)
    | Forget(n: NodeId)       // crash, restart or loss of the local lease

  predicate IsCurrent(s: Sys, c: Caller) {
    L.IsCurrent(s.election, c.token, c.fence, s.now)
  }

  ghost predicate Next(s: Sys, a: Action, s': Sys) {
    match a
    case Tick(elapsed) => s' == s.(now := s.now + elapsed)
    case LeaderExpires =>
      && s.election.leader.Some? && s.election.leader.value.expireAt <= s.now
      && s' == s.(election := s.election.(leader := None))
    case Acquire(n, token, ttlMs, delivered) =>
      && n in s.nodes
      && var (e, reply) := L.AcquireStep(s.election, token, s.now, ttlMs);
      && s' == s.(election := e,
                  nodes := if delivered && reply.Acquired?
                           then s.nodes[n := s.nodes[n].(lease := Some(Caller(token, reply.fence)))] else s.nodes)
    case Renew(n, ttlMs) =>
      && n in s.nodes && s.nodes[n].lease.Some?
      && var c := s.nodes[n].lease.value;
      && s' == s.(election := L.RenewStep(s.election, c.token, c.fence, s.now, ttlMs).0)
    case Relinquish(n) =>
      && n in s.nodes && s.nodes[n].lease.Some?
      && var c := s.nodes[n].lease.value;
      && s' == s.(election := L.RelinquishStep(s.election, c.token, c.fence, s.now).0)
    case Prepare(n, spec, delivered) =>
      && n in s.nodes && s.nodes[n].lease.Some?
      && PrepareNext(s, n, spec, delivered, s')
    // Kafka may accept the record although the scheduler never learns it.
    case Publish(n, slice, acked) =>
      && n in s.nodes && s.nodes[n].window.Some? && slice < s.nodes[n].window.value.total
      && var w := s.nodes[n].window.value;
      && s' == s.(kafka := s.kafka + {SliceKey(w.id, slice, w.total)},
                  nodes := if acked then s.nodes[n := s.nodes[n].(published := s.nodes[n].published + {slice})] else s.nodes)
    // A slice is acknowledged in the ledger only after Kafka acknowledged it.
    case Ack(n, slice) =>
      && n in s.nodes && s.nodes[n].lease.Some? && s.nodes[n].window.Some? && slice in s.nodes[n].published
      && var (sch, reply) := AckStep(s.schedule, IsCurrent(s, s.nodes[n].lease.value), s.nodes[n].window.value, slice);
      && s' == s.(schedule := sch,
                  completed := if s.schedule.active.Some? && sch.active.None?
                               then s.completed + [s.schedule.active.value.id] else s.completed)
    case Forget(n) => s' == s.(nodes := s.nodes[n := Scheduler(None, None, {})])
  }

  ghost predicate PrepareNext(s: Sys, n: NodeId, spec: Spec, delivered: bool, s': Sys)
    requires n in s.nodes && s.nodes[n].lease.Some?
  {
    var (sch, reply) := PrepareStep(s.schedule, IsCurrent(s, s.nodes[n].lease.value), spec, s.now);
    s' == s.(schedule := sch,
             created := if s.schedule.active.None? && sch.active.Some? then s.created + [sch.active.value.id] else s.created,
             nodes := if delivered && reply.Ready?
                      then s.nodes[n := s.nodes[n].(window := Some(reply.window), published := {})] else s.nodes)
  }

  predicate Init(s: Sys) {
    && s.now >= 0 && s.election == L.Election(None, 0) && s.schedule == Empty()
    && s.kafka == {} && s.nodes == map[] && s.created == [] && s.completed == []
  }

  ghost predicate Run(states: seq<Sys>, actions: seq<Action>) {
    && |states| == |actions| + 1
    && Init(states[0])
    && forall i :: 0 <= i < |actions| ==> Next(states[i], actions[i], states[i + 1])
  }

  // ---- The invariant -------------------------------------------------------------------------

  predicate FullyPublished(s: Sys, id: WindowId) {
    forall i :: 0 <= i < id.total ==> SliceKey(id, i, id.total) in s.kafka
  }

  predicate ScheduleInv(s: Sys) {
    match s.schedule.active
    case None => s.schedule.acks == {}
    case Some(a) =>
      && a.total == a.id.total && a.scheduledAt == a.id.scheduledAt && a.version == a.id.version
      && 1 <= a.total <= MAX_DISPATCH_SLICES && (a.repeat.Every? ==> a.repeat.ms >= 1)
      && s.schedule.acks <= Upto(a.total)
      && a.ackCount == |s.schedule.acks| < a.total
      && forall i :: i in s.schedule.acks ==> SliceKey(a.id, i, a.total) in s.kafka
  }

  predicate SchedulerInv(s: Sys, node: Scheduler) {
    && (node.window.Some? ==> node.window.value.total == node.window.value.id.total)
    && (node.window.None? ==> node.published == {})
    && (node.window.Some? ==>
          forall i :: i in node.published ==> SliceKey(node.window.value.id, i, node.window.value.total) in s.kafka)
  }

  predicate Inv(s: Sys) {
    && ScheduleInv(s)
    && (forall n :: n in s.nodes ==> SchedulerInv(s, s.nodes[n]))
    && (forall k :: 0 <= k < |s.completed| ==> FullyPublished(s, s.completed[k]))
    && s.created == s.completed + (if s.schedule.active.Some? then [s.schedule.active.value.id] else [])
  }

  lemma AllSlicesAcked(acks: set<nat>, n: nat)
    requires acks <= Upto(n) && |acks| == n
    ensures acks == Upto(n)
  {
    assert |Upto(n) - acks| == |Upto(n)| - |acks|;
    assert Upto(n) - acks == {};
  }

  /** When the last slice is acknowledged, the whole window is in Kafka. */
  lemma LastAckPublishes(s: Sys, a: Active, acks: set<nat>)
    requires a.total == a.id.total && acks <= Upto(a.total) && |acks| == a.total
    requires forall i :: i in acks ==> SliceKey(a.id, i, a.total) in s.kafka
    ensures FullyPublished(s, a.id)
  {
    AllSlicesAcked(acks, a.total);
  }

  lemma CompletedStayPublished(s: Sys, s': Sys)
    requires s'.kafka == s.kafka && forall k :: 0 <= k < |s.completed| ==> FullyPublished(s, s.completed[k])
    requires s'.completed == s.completed || exists id :: s'.completed == s.completed + [id] && FullyPublished(s, id)
    ensures forall k :: 0 <= k < |s'.completed| ==> FullyPublished(s', s'.completed[k])
  {
    forall k | 0 <= k < |s'.completed| ensures FullyPublished(s', s'.completed[k]) {
      assert FullyPublished(s, s'.completed[k]);
    }
  }

  lemma AckKeepsSchedule(s: Sys, n: NodeId, slice: nat, s': Sys)
    requires Inv(s) && Next(s, Ack(n, slice), s')
    ensures ScheduleInv(s')
    ensures s'.completed == s.completed || exists id :: s'.completed == s.completed + [id] && FullyPublished(s, id)
    ensures s'.created == s'.completed + (if s'.schedule.active.Some? then [s'.schedule.active.value.id] else [])
  {
    var w, node := s.nodes[n].window.value, s.nodes[n];
    var (sch, reply) := AckStep(s.schedule, IsCurrent(s, node.lease.value), w, slice);
    if sch != s.schedule {
      var a := s.schedule.active.value;
      assert SchedulerInv(s, node);
      assert SliceKey(a.id, slice, a.total) in s.kafka;
      var acks := s.schedule.acks + {slice};
      assert acks <= Upto(a.total);
      if sch.active.None? {
        LastAckPublishes(s, a, acks);
      }
    }
  }

  lemma AckKeepsInv(s: Sys, n: NodeId, slice: nat, s': Sys)
    requires Inv(s) && Next(s, Ack(n, slice), s')
    ensures Inv(s')
  {
    AckKeepsSchedule(s, n, slice, s');
    CompletedStayPublished(s, s');
    forall m | m in s'.nodes ensures SchedulerInv(s', s'.nodes[m]) {
      assert SchedulerInv(s, s.nodes[m]);
    }
  }

  /** Steps that leave the ledger alone only have to keep the schedulers' own copies honest. */
  lemma QuietStepKeepsInv(s: Sys, s': Sys)
    requires Inv(s) && s'.schedule == s.schedule && s'.created == s.created && s'.completed == s.completed
    requires s.kafka <= s'.kafka
    requires forall n :: n in s'.nodes ==> SchedulerInv(s', s'.nodes[n])
    ensures Inv(s')
  {
    forall k | 0 <= k < |s'.completed| ensures FullyPublished(s', s'.completed[k]) {
      assert FullyPublished(s, s.completed[k]);
    }
  }

  lemma PrepareKeepsInv(s: Sys, n: NodeId, spec: Spec, delivered: bool, s': Sys)
    requires Inv(s) && Next(s, Prepare(n, spec, delivered), s')
    ensures Inv(s')
  {
    forall k | 0 <= k < |s'.completed| ensures FullyPublished(s', s'.completed[k]) {
      assert FullyPublished(s, s.completed[k]);
    }
  }

  lemma SchedulersStayHonest(s: Sys, a: Action, s': Sys)
    requires Inv(s) && Next(s, a, s') && !a.Ack? && !a.Prepare?
    ensures s'.schedule == s.schedule && s'.created == s.created && s'.completed == s.completed && s.kafka <= s'.kafka
    ensures forall n :: n in s'.nodes ==> SchedulerInv(s', s'.nodes[n])
  {
  }

  lemma NextKeepsInv(s: Sys, a: Action, s': Sys)
    requires Inv(s) && Next(s, a, s')
    ensures Inv(s')
  {
    if a.Ack? {
      AckKeepsInv(s, a.n, a.slice, s');
    } else if a.Prepare? {
      PrepareKeepsInv(s, a.n, a.spec, a.delivered, s');
    } else {
      SchedulersStayHonest(s, a, s');
      QuietStepKeepsInv(s, s');
    }
  }

  lemma {:induction false} RunKeepsInv(states: seq<Sys>, actions: seq<Action>, i: nat)
    requires Run(states, actions) && i < |states|
    ensures Inv(states[i])
  {
    if i > 0 {
      RunKeepsInv(states, actions, i - 1);
      NextKeepsInv(states[i - 1], actions[i - 1], states[i]);
    }
  }

  /**
   Dispatch never loses a slice: in every reachable state, whatever leaders did, every slice of
   every finished window is in Kafka under its deterministic key, the acknowledgement count equals
   the number of flags, and each flagged slice of the active window is in Kafka.
   */
  lemma CompletedWindowsArePublished(states: seq<Sys>, actions: seq<Action>, i: nat)
    requires Run(states, actions) && i < |states|
    ensures forall k :: 0 <= k < |states[i].completed| ==> FullyPublished(states[i], states[i].completed[k])
    ensures states[i].schedule.active.Some? ==>
              var a := states[i].schedule.active.value;
              && a.ackCount == |states[i].schedule.acks|
              && forall x :: x in states[i].schedule.acks ==> x < a.total && SliceKey(a.id, x, a.total) in states[i].kafka
  {
    RunKeepsInv(states, actions, i);
  }

  /**
   Resumption: a current leader with the active window's plan is handed exactly the slices that are
   not acknowledged yet, never an empty list and never an inconsistency error.
   */
  lemma LeaderResumesMissingSlices(states: seq<Sys>, actions: seq<Action>, i: nat, spec: Spec, now: int)
    requires Run(states, actions) && i < |states| && ValidSpec(spec)
    requires states[i].schedule.active.Some?
    requires var a := states[i].schedule.active.value;
             a.version == spec.version && a.total == spec.total && a.repeat == spec.repeat && a.fingerprint == spec.fingerprint
    ensures var (sch, reply) := PrepareStep(states[i].schedule, true, spec, now);
            && sch == states[i].schedule && reply.Ready?
            && reply.window.id == states[i].schedule.active.value.id && reply.window.missing != []
            && forall x: nat :: x in reply.window.missing <==> x < spec.total && x !in states[i].schedule.acks
  {
    RunKeepsInv(states, actions, i);
    var s := states[i];
    MissingMeansUnflagged(s.schedule.acks, spec.total);
    FlagCountIsSize(s.schedule.acks, spec.total);
    assert s.schedule.acks * Upto(spec.total) == s.schedule.acks;
  }

  // ---- Schedule times form an exact progression ----------------------------------------------

  ghost predicate FixedPolicy(actions: seq<Action>, repeat: Repeat) {
    forall i :: 0 <= i < |actions| && actions[i].Prepare? ==> actions[i].spec.repeat == repeat
  }

  function Slot(start: int, k: int, interval: int): int {
    start + k * interval
  }

  predicate ProgressionInv(s: Sys, repeat: Repeat) {
    && (s.schedule.active.Some? ==> s.schedule.active.value.repeat == repeat)
    && (forall k :: 0 <= k < |s.created| ==> s.created[k].scheduledAt <= s.now)
    && |s.completed| <= |s.created|
    && match repeat
       case Once =>
         && |s.created| <= 1 && s.schedule.nextAt == None
         && (s.schedule.onceDone <==> |s.completed| == 1)
       case Every(interval) =>
         && s.schedule.nextAt == (if s.completed == [] then None
                                  else Some(Slot(s.created[0].scheduledAt, |s.completed|, interval)))
         && forall k :: 0 <= k < |s.created| ==> s.created[k].scheduledAt == Slot(s.created[0].scheduledAt, k, interval)
  }

  /** What a preparation does to the schedule: nothing, or it opens one due window. */
  lemma PrepareOpens(s: Sys, n: NodeId, spec: Spec, delivered: bool, s': Sys)
    requires Next(s, Prepare(n, spec, delivered), s')
    ensures s'.now == s.now && s'.completed == s.completed
    ensures s'.schedule.nextAt == s.schedule.nextAt && s'.schedule.onceDone == s.schedule.onceDone
    ensures s'.created == s.created ==> s'.schedule.active == s.schedule.active
    ensures s'.created != s.created ==>
              && s.schedule.active.None? && s'.schedule.active.Some? && s'.schedule.active.value.repeat == spec.repeat
              && s'.created == s.created + [s'.schedule.active.value.id]
              && !(spec.repeat.Once? && s.schedule.onceDone)
              && s'.schedule.active.value.id.scheduledAt == (if s.schedule.nextAt.Some? then s.schedule.nextAt.value else s.now) <= s.now
  {
  }

  lemma FirstSlot(start: int, interval: int)
    ensures Slot(start, 0, interval) == start
  {
  }

  lemma PrepareKeepsProgression(s: Sys, n: NodeId, spec: Spec, delivered: bool, s': Sys, repeat: Repeat)
    requires Inv(s) && Next(s, Prepare(n, spec, delivered), s') && spec.repeat == repeat && ProgressionInv(s, repeat)
    ensures ProgressionInv(s', repeat)
  {
    PrepareOpens(s, n, spec, delivered, s');
    if s'.created != s.created {
      assert s.created == s.completed && |s'.created| == |s.completed| + 1;
      if repeat.Every? {
        FirstSlot(s'.created[0].scheduledAt, repeat.ms);
        forall k | 0 <= k < |s'.created| ensures s'.created[k].scheduledAt == Slot(s'.created[0].scheduledAt, k, repeat.ms) {
          if k < |s.created| {
            assert s'.created[k] == s.created[k];
          }
        }
      }
    }
  }

  lemma SlotAfter(start: int, k: int, interval: int)
    ensures Slot(start, k + 1, interval) == Slot(start, k, interval) + interval
  {
  }

  /** What an acknowledgement does to the schedule: nothing, or it finishes the active window. */
  lemma AckFinishes(s: Sys, n: NodeId, slice: nat, s': Sys)
    requires ScheduleInv(s) && Next(s, Ack(n, slice), s')
    ensures s'.now == s.now && s'.created == s.created
    ensures s'.completed == s.completed ==>
              && s'.schedule.nextAt == s.schedule.nextAt && s'.schedule.onceDone == s.schedule.onceDone
              && (s'.schedule.active.Some? ==> s.schedule.active.Some? && s'.schedule.active.value.repeat == s.schedule.active.value.repeat)
    ensures s'.completed != s.completed ==>
              && s.schedule.active.Some? && s'.schedule.active.None? && s'.completed == s.completed + [s.schedule.active.value.id]
              && (s.schedule.active.value.repeat.Once? ==> s'.schedule.onceDone && s'.schedule.nextAt.None?)
              && (s.schedule.active.value.repeat.Every? ==>
                    s'.schedule.nextAt == Some(s.schedule.active.value.scheduledAt + s.schedule.active.value.repeat.ms))
  {
  }

  lemma AckKeepsProgression(s: Sys, n: NodeId, slice: nat, s': Sys, repeat: Repeat)
    requires Inv(s) && Inv(s') && Next(s, Ack(n, slice), s') && ProgressionInv(s, repeat)
    ensures ProgressionInv(s', repeat)
  {
    AckFinishes(s, n, slice, s');
    if s'.completed != s.completed && repeat.Every? {
      var a := s.schedule.active.value;
      assert s.created[|s.completed|] == a.id;
      SlotAfter(s.created[0].scheduledAt, |s.completed|, repeat.ms);
    }
  }

  lemma NextKeepsProgression(s: Sys, a: Action, s': Sys, repeat: Repeat)
    requires Inv(s) && Inv(s') && Next(s, a, s') && ProgressionInv(s, repeat)
    requires a.Prepare? ==> a.spec.repeat == repeat
    ensures ProgressionInv(s', repeat)
  {
    if a.Ack? {
      AckKeepsProgression(s, a.n, a.slice, s', repeat);
    } else if a.Prepare? {
      PrepareKeepsProgression(s, a.n, a.spec, a.delivered, s', repeat);
    } else {
      SchedulersStayHonest(s, a, s');
      TimeNeverRunsBack(s, a, s');
    }
  }

  lemma {:induction false} RunKeepsProgression(states: seq<Sys>, actions: seq<Action>, repeat: Repeat, i: nat)
    requires Run(states, actions) && FixedPolicy(actions, repeat) && i < |states|
    ensures ProgressionInv(states[i], repeat)
  {
    if i > 0 {
      RunKeepsProgression(states, actions, repeat, i - 1);
      RunKeepsInv(states, actions, i - 1);
      RunKeepsInv(states, actions, i);
      NextKeepsProgression(states[i - 1], actions[i - 1], states[i], repeat);
    }
  }

  lemma TimeNeverRunsBack(s: Sys, a: Action, s': Sys)
    requires Next(s, a, s')
    ensures s.now <= s'.now
  {
  }

  /**
   With a fixed repeat policy: `Once` opens one window at most, and once it is finished the ledger
   reports `Finished` for ever; `Every` opens exactly the windows t0, t0 + d, t0 + 2d, ... with none
   skipped or repeated, each only when due and only after its predecessor was fully published.
   */
  lemma WindowsFormProgression(states: seq<Sys>, actions: seq<Action>, repeat: Repeat, i: nat)
    requires Run(states, actions) && FixedPolicy(actions, repeat) && i < |states|
    ensures var s := states[i];
            && (repeat.Once? ==> |s.created| <= 1)
            && (repeat.Every? ==> forall k :: 0 <= k < |s.created| ==>
                  s.created[k].scheduledAt == s.created[0].scheduledAt + k * repeat.ms)
            && |s.completed| <= |s.created| <= |s.completed| + 1
            && (forall k :: 0 <= k < |s.completed| ==> s.created[k] == s.completed[k] && FullyPublished(s, s.created[k]))
            && (forall k :: 0 <= k < |s.created| ==> s.created[k].scheduledAt <= s.now)
    ensures repeat.Once? && |states[i].completed| == 1 ==>
              forall spec, now :: ValidSpec(spec) && spec.repeat == repeat ==>
                PrepareStep(states[i].schedule, true, spec, now) == (states[i].schedule, Finished)
  {
    RunKeepsProgression(states, actions, repeat, i);
    RunKeepsInv(states, actions, i);
    var s := states[i];
    if repeat.Every? {
      forall k | 0 <= k < |s.created| ensures s.created[k].scheduledAt == s.created[0].scheduledAt + k * repeat.ms {
        assert s.created[k].scheduledAt == Slot(s.created[0].scheduledAt, k, repeat.ms);
      }
    }
  }

  // ---- Fencing -------------------------------------------------------------------------------

  /** The stored leader always carries the latest fence, and nobody holds a fence not yet issued. */
  predicate FenceInv(s: Sys) {
    && (s.election.leader.Some? ==> s.election.leader.value.fence == s.election.fences)
    && (forall n :: n in s.nodes && s.nodes[n].lease.Some? ==> s.nodes[n].lease.value.fence <= s.election.fences)
  }

  lemma NextKeepsFenceInv(s: Sys, a: Action, s': Sys)
    requires FenceInv(s) && Next(s, a, s')
    ensures FenceInv(s') && s.election.fences <= s'.election.fences
  {
  }

  lemma {:induction false} RunKeepsFenceInv(states: seq<Sys>, actions: seq<Action>, i: nat, j: nat)
    requires Run(states, actions) && i <= j < |states|
    ensures FenceInv(states[j]) && states[i].election.fences <= states[j].election.fences
  {
    if j > 0 {
      RunKeepsFenceInv(states, actions, if i < j then i else j - 1, j - 1);
      NextKeepsFenceInv(states[j - 1], actions[j - 1], states[j]);
    }
  }

  /** Every acquisition is issued a fence above every fence issued before it. */
  lemma FencesStrictlyIncrease(states: seq<Sys>, actions: seq<Action>, i: nat, j: nat, token: Token, ttlMs: int)
    requires Run(states, actions) && i < j < |states|
    requires L.AcquireStep(states[j].election, token, states[j].now, ttlMs).1.Acquired?
    ensures states[i].election.fences < L.AcquireStep(states[j].election, token, states[j].now, ttlMs).1.fence
    ensures forall n :: n in states[i].nodes && states[i].nodes[n].lease.Some? ==>
              states[i].nodes[n].lease.value.fence < L.AcquireStep(states[j].election, token, states[j].now, ttlMs).1.fence
  {
    RunKeepsFenceInv(states, actions, i, j);
    RunKeepsFenceInv(states, actions, i, i);
  }

  /** Only the holder of the latest fence ever changes the ledger. */
  lemma OnlyLatestFenceChangesLedger(states: seq<Sys>, actions: seq<Action>, i: nat)
    requires Run(states, actions) && i < |actions|
    requires states[i + 1].schedule != states[i].schedule
    ensures actions[i].Prepare? || actions[i].Ack?
    ensures actions[i].n in states[i].nodes && states[i].nodes[actions[i].n].lease.Some?
    ensures states[i].nodes[actions[i].n].lease.value.fence == states[i].election.fences
    ensures L.HeldBy(states[i].election, states[i].nodes[actions[i].n].lease.value.token, states[i].election.fences)
  {
    RunKeepsFenceInv(states, actions, i, i);
    RunKeepsInv(states, actions, i);
    assert Next(states[i], actions[i], states[i + 1]);
    if !actions[i].Ack? && !actions[i].Prepare? {
      SchedulersStayHonest(states[i], actions[i], states[i + 1]);
    }
  }

  /** A leader overtaken by a newer fence is refused for ever, whatever it still believes. */
  lemma StaleLeaderIsFenced(states: seq<Sys>, actions: seq<Action>, i: nat, j: nat, stale: Caller, spec: Spec,
                            w: Window, slice: nat)
    requires Run(states, actions) && i <= j < |states| && stale.fence < states[i].election.fences
    ensures PrepareStep(states[j].schedule, IsCurrent(states[j], stale), spec, states[j].now).0 == states[j].schedule
    ensures !PrepareStep(states[j].schedule, IsCurrent(states[j], stale), spec, states[j].now).1.Ready?
    ensures AckStep(states[j].schedule, IsCurrent(states[j], stale), w, slice).0 == states[j].schedule
    ensures AckStep(states[j].schedule, IsCurrent(states[j], stale), w, slice).1 in {AckStale, AckInvalid}
  {
    RunKeepsFenceInv(states, actions, i, j);
  }
}
