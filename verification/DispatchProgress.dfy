/**
 Whatever leaders did, dispatch can go on: every run continues to one in which the window that is open,
 or the next one, is finished with all its slices in Kafka.
 */
module DispatchProgress {
  import opened Common
  import opened DispatchLedger
  import opened Dispatch
  import opened DispatchAnswers
  import L = LeaderLease

  function Last(states: seq<Sys>): Sys
    requires states != []
  {
    states[|states| - 1]
  }

  /** The second run goes on where the first one stops. */
  ghost predicate Continues(states: seq<Sys>, actions: seq<Action>, states': seq<Sys>, actions': seq<Action>) {
    Run(states, actions) && Run(states', actions') && states <= states' && actions <= actions'
  }

  lemma OneStepOn(states: seq<Sys>, actions: seq<Action>, a: Action, s': Sys) returns (states': seq<Sys>, actions': seq<Action>)
    requires Run(states, actions) && Next(Last(states), a, s')
    ensures Continues(states, actions, states', actions') && Last(states') == s'
  {
    states', actions' := states + [s'], actions + [a];
    forall i | 0 <= i < |actions'| ensures Next(states'[i], actions'[i], states'[i + 1]) {
      if i < |actions| {
        assert states'[i] == states[i] && actions'[i] == actions[i] && states'[i + 1] == states[i + 1];
      }
    }
  }

  /** Only the clock, the election and the schedulers differ. */
  ghost predicate SameLedger(s: Sys, s': Sys) {
    s'.schedule == s.schedule && s'.kafka == s.kafka && s'.created == s.created && s'.completed == s.completed
  }

  /** Scheduler `n` is the current leader. */
  ghost predicate Leads(s: Sys, n: NodeId) {
    n in s.nodes && s.nodes[n].lease.Some? && IsCurrent(s, s.nodes[n].lease.value)
  }

  // ---- A leader can always be found ----------------------------------------------------------------

  lemma ElectionFallsFree(states: seq<Sys>, actions: seq<Action>, wait: nat) returns (states': seq<Sys>, actions': seq<Action>)
    requires Run(states, actions)
    ensures Continues(states, actions, states', actions') && SameLedger(Last(states), Last(states'))
    ensures Last(states').election.leader.None? && Last(states').now >= Last(states).now + wait
  {
    var s := Last(states);
    var lapse := if s.election.leader.Some? then s.election.leader.value.expireAt - s.now else 0;
    var elapsed := Max(wait, lapse);
    var s1 := s.(now := s.now + elapsed);
    states', actions' := OneStepOn(states, actions, Tick(elapsed), s1);
    if s.election.leader.Some? {
      var st, ac := OneStepOn(states', actions', LeaderExpires, s1.(election := s1.election.(leader := None)));
      states', actions' := st, ac;
    }
  }

  /** From every state of every run, after any wait, some scheduler can become the current leader. */
  lemma LeaderCanBeElected(states: seq<Sys>, actions: seq<Action>, n: NodeId, token: Token, wait: nat)
    returns (states': seq<Sys>, actions': seq<Action>)
    requires Run(states, actions)
    ensures Continues(states, actions, states', actions') && SameLedger(Last(states), Last(states'))
    ensures Leads(Last(states'), n) && Last(states').now >= Last(states).now + wait
  {
    var st1, ac1 := ElectionFallsFree(states, actions, wait);
    var s1 := Last(st1);
    var s2 := s1.(nodes := s1.nodes[n := Scheduler(None, None, {})]);
    var st2, ac2 := OneStepOn(st1, ac1, Forget(n), s2);
    var (e, reply) := L.AcquireStep(s2.election, token, s2.now, 1);
    var s3 := s2.(election := e, nodes := s2.nodes[n := s2.nodes[n].(lease := Some(Caller(token, reply.fence)))]);
    states', actions' := OneStepOn(st2, ac2, Acquire(n, token, 1, true), s3);
  }

  // ---- And finishes the window it is handed -----------------------------------------------------------

  /** The current leader `n` works on the open window. */
  ghost predicate Dispatching(s: Sys, n: NodeId, w: Window) {
    Leads(s, n) && s.nodes[n].window == Some(w) && IsOpen(s.schedule, w) && w.total == w.id.total
  }

  lemma WindowIsHandedOut(states: seq<Sys>, actions: seq<Action>, n: NodeId, spec: Spec)
    returns (states': seq<Sys>, actions': seq<Action>, w: Window)
    requires Run(states, actions) && Leads(Last(states), n) && ValidSpec(spec)
    requires var s := Last(states); (s.schedule.active.Some? && SamePlan(s.schedule.active.value, spec)) || CanOpen(s.schedule, spec, s.now)
    ensures Continues(states, actions, states', actions') && Dispatching(Last(states'), n, w)
    ensures Last(states').completed == Last(states).completed
    ensures Last(states).schedule.active.Some? ==> w.id == Last(states).schedule.active.value.id
    ensures Last(states).schedule.active.None? ==>
              w.id == WindowId(spec.version, DueAt(Last(states).schedule, Last(states).now), spec.total)
  {
    var s := Last(states);
    var (sch, reply) := PrepareStep(s.schedule, true, spec, s.now);
    RunKeepsInv(states, actions, |states| - 1);
    if s.schedule.active.Some? && SamePlan(s.schedule.active.value, spec) {
      OpenWindowHasMissing(s, spec, s.now);
    } else {
      NewWindowHasMissing(s, spec, s.now);
    }
    w := reply.window;
    var created := if s.schedule.active.None? && sch.active.Some? then s.created + [sch.active.value.id] else s.created;
    var s' := s.(schedule := sch, created := created, nodes := s.nodes[n := s.nodes[n].(window := Some(w), published := {})]);
    states', actions' := OneStepOn(states, actions, Prepare(n, spec, true), s');
  }

  /** One slice is published and acknowledged: it is flagged, or it was the last and the window is finished. */
  lemma SliceIsDispatched(states: seq<Sys>, actions: seq<Action>, n: NodeId, w: Window, slice: nat)
    returns (states': seq<Sys>, actions': seq<Action>)
    requires Run(states, actions) && Dispatching(Last(states), n, w) && slice < w.total && slice !in Last(states).schedule.acks
    ensures Continues(states, actions, states', actions')
    ensures var s, s' := Last(states), Last(states');
            if s'.schedule.active.Some? then
              Dispatching(s', n, w) && s'.completed == s.completed && s'.schedule.acks == s.schedule.acks + {slice}
            else s'.completed == s.completed + [w.id]
  {
    var s := Last(states);
    RunKeepsInv(states, actions, |states| - 1);
    var s1 := s.(kafka := s.kafka + {SliceKey(w.id, slice, w.total)},
                 nodes := s.nodes[n := s.nodes[n].(published := s.nodes[n].published + {slice})]);
    var st1, ac1 := OneStepOn(states, actions, Publish(n, slice, true), s1);
    AckOfOpenWindow(s, w, slice);
    var sch := AckStep(s1.schedule, true, w, slice).0;
    var completed := if s1.schedule.active.Some? && sch.active.None? then s1.completed + [s1.schedule.active.value.id] else s1.completed;
    states', actions' := OneStepOn(st1, ac1, Ack(n, slice), s1.(schedule := sch, completed := completed));
  }

  lemma SomeSliceIsMissing(s: Sys, w: Window) returns (slice: nat)
    requires Inv(s) && IsOpen(s.schedule, w) && w.total == w.id.total
    ensures slice < w.total && slice !in s.schedule.acks && |s.schedule.acks| < w.total
  {
    var acks := s.schedule.acks;
    assert Upto(w.total) <= acks ==> acks == Upto(w.total);
    slice :| slice in Upto(w.total) && slice !in acks;
  }

  lemma {:induction false} OpenWindowIsFinished(states: seq<Sys>, actions: seq<Action>, n: NodeId, w: Window)
    returns (states': seq<Sys>, actions': seq<Action>)
    requires Run(states, actions) && Dispatching(Last(states), n, w)
    ensures Continues(states, actions, states', actions') && Last(states').completed == Last(states).completed + [w.id]
    decreases w.total - |Last(states).schedule.acks|
  {
    RunKeepsInv(states, actions, |states| - 1);
    var slice := SomeSliceIsMissing(Last(states), w);
    var st1, ac1 := SliceIsDispatched(states, actions, n, w, slice);
    if Last(st1).schedule.active.Some? {
      RunKeepsInv(st1, ac1, |st1| - 1);
      var next := SomeSliceIsMissing(Last(st1), w);
      states', actions' := OpenWindowIsFinished(st1, ac1, n, w);
    } else {
      states', actions' := st1, ac1;
    }
  }

  /**
   Every run goes on to one that has finished one more window, with all its slices in Kafka: the open one
   under the given plan, or else the next one of the schedule, unless a Once schedule is done.
   */
  lemma NextWindowCanBeFinished(states: seq<Sys>, actions: seq<Action>, n: NodeId, token: Token, spec: Spec)
    returns (states': seq<Sys>, actions': seq<Action>, id: WindowId)
    requires Run(states, actions) && ValidSpec(spec)
    requires var sch := Last(states).schedule;
             if sch.active.Some? then SamePlan(sch.active.value, spec) else !(spec.repeat.Once? && sch.onceDone)
    ensures Continues(states, actions, states', actions') && Last(states').completed == Last(states).completed + [id]
    ensures FullyPublished(Last(states'), id)
    ensures var sch := Last(states).schedule;
            if sch.active.Some? then id == sch.active.value.id
            else id.version == spec.version && id.total == spec.total && (sch.nextAt.Some? ==> id.scheduledAt == sch.nextAt.value)
  {
    var s := Last(states);
    var wait := if s.schedule.nextAt.Some? then Max(0, s.schedule.nextAt.value - s.now) else 0;
    var st1, ac1 := LeaderCanBeElected(states, actions, n, token, wait);
    var st2, ac2, w := WindowIsHandedOut(st1, ac1, n, spec);
    states', actions' := OpenWindowIsFinished(st2, ac2, n, w);
    id := w.id;
    CompletedWindowsArePublished(states', actions', |states'| - 1);
    assert Last(states').completed[|s.completed|] == id;
  }
}
