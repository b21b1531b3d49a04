/** What the election and the dispatch ledger answer in every reachable state, to leaders and to others. */
module DispatchAnswers {
  import opened Common
  import opened DispatchLedger
  import opened Dispatch
  import L = LeaderLease

  // ---- Preparing -----------------------------------------------------------------------------

  /** The plan of the active window is the caller's plan. */
  predicate SamePlan(a: Active, spec: Spec) {
    a.version == spec.version && a.total == spec.total && a.repeat == spec.repeat && a.fingerprint == spec.fingerprint
  }

  /** When the next window is due: at once before the first, else at the recorded time. */
  function DueAt(sch: Schedule, now: int): int {
    if sch.nextAt.Some? then sch.nextAt.value else now
  }

  predicate CanOpen(sch: Schedule, spec: Spec, now: int) {
    sch.active.None? && !(spec.repeat.Once? && sch.onceDone) && DueAt(sch, now) <= now
  }

  /** The handed-out slices are exactly those of the open window that have no flag, in order, and there is one. */
  ghost predicate HandsOutMissing(sch: Schedule, w: Window) {
    && sch.active.Some? && w.id == sch.active.value.id && w.total == sch.active.value.total && w.fingerprint == sch.active.value.fingerprint
    && w.missing != []
    && (forall x: nat :: x in w.missing <==> x < w.total && x !in sch.acks)
    && forall j, k :: 0 <= j < k < |w.missing| ==> w.missing[j] < w.missing[k]
  }

  lemma OpenWindowHasMissing(s: Sys, spec: Spec, now: int)
    requires Inv(s) && ValidSpec(spec) && s.schedule.active.Some? && SamePlan(s.schedule.active.value, spec)
    ensures PrepareStep(s.schedule, true, spec, now).0 == s.schedule
    ensures var reply := PrepareStep(s.schedule, true, spec, now).1; reply.Ready? && HandsOutMissing(s.schedule, reply.window)
  {
    MissingMeansUnflagged(s.schedule.acks, spec.total);
    FlagCountIsSize(s.schedule.acks, spec.total);
    assert s.schedule.acks * Upto(spec.total) == s.schedule.acks;
  }

  lemma NewWindowHasMissing(s: Sys, spec: Spec, now: int)
    requires Inv(s) && ValidSpec(spec) && CanOpen(s.schedule, spec, now)
    ensures var (sch, reply) := PrepareStep(s.schedule, true, spec, now);
            && reply.Ready? && HandsOutMissing(sch, reply.window) && SamePlan(sch.active.value, spec)
            && sch.active.value.scheduledAt == DueAt(s.schedule, now) && sch.active.value.ackCount == 0
            && sch.active.value.id == WindowId(spec.version, DueAt(s.schedule, now), spec.total)
            && sch == s.schedule.(active := sch.active)
  {
    MissingMeansUnflagged({}, spec.total);
    assert FlagCount({}, spec.total) == 0 by {
      FlagCountIsSize({}, spec.total);
      assert {} * Upto(spec.total) == {};
    }
  }

  /**
   A current leader gets a window exactly when one is open under its plan or one is due, and then
   always the open window with exactly its unflagged slices, never none.
   */
  lemma LeaderIsHandedTheWindow(states: seq<Sys>, actions: seq<Action>, i: nat, spec: Spec, now: int)
    requires Run(states, actions) && i < |states| && ValidSpec(spec)
    ensures var sch := states[i].schedule;
            var (sch', reply) := PrepareStep(sch, true, spec, now);
            && (reply.Ready? <==> (sch.active.Some? && SamePlan(sch.active.value, spec)) || CanOpen(sch, spec, now))
            && (reply.Ready? ==> HandsOutMissing(sch', reply.window) && SamePlan(sch'.active.value, spec))
            && (!reply.Ready? ==> sch' == sch)
  {
    RunKeepsInv(states, actions, i);
    var sch := states[i].schedule;
    if sch.active.Some? && SamePlan(sch.active.value, spec) {
      OpenWindowHasMissing(states[i], spec, now);
    } else if CanOpen(sch, spec, now) {
      NewWindowHasMissing(states[i], spec, now);
    }
  }

  /** When a window is due, the preparation of a current leader opens exactly that one. */
  lemma DueWindowIsOpened(states: seq<Sys>, actions: seq<Action>, i: nat)
    requires Run(states, actions) && i < |actions| && actions[i].Prepare? && ValidSpec(actions[i].spec)
    requires Next(states[i], actions[i], states[i + 1]) && IsCurrent(states[i], states[i].nodes[actions[i].n].lease.value)
    requires CanOpen(states[i].schedule, actions[i].spec, states[i].now)
    ensures var spec := actions[i].spec;
            var id := WindowId(spec.version, DueAt(states[i].schedule, states[i].now), spec.total);
            && states[i + 1].created == states[i].created + [id]
            && states[i + 1].schedule.active.Some? && states[i + 1].schedule.active.value.id == id
            && (actions[i].delivered ==> states[i + 1].nodes[actions[i].n].window.Some?
                                         && HandsOutMissing(states[i + 1].schedule, states[i + 1].nodes[actions[i].n].window.value))
  {
    RunKeepsInv(states, actions, i);
    NewWindowHasMissing(states[i], actions[i].spec, states[i].now);
  }

  /**
   The refusals mean what they say: `NotDue` names the exact wait, `Finished` holds for ever, and a
   valid plan is called invalid only while a window with a different plan is open.
   */
  lemma RefusalsAreExact(states: seq<Sys>, actions: seq<Action>, i: nat, spec: Spec, now: int, later: int)
    requires Run(states, actions) && i < |states| && ValidSpec(spec)
    ensures var sch := states[i].schedule;
            var reply := PrepareStep(sch, true, spec, now).1;
            && (reply.PrepareInvalid? <==> sch.active.Some? && !SamePlan(sch.active.value, spec))
            && (reply.Finished? ==> PrepareStep(sch, true, spec, later).1.Finished?)
            && (reply.Finished? <==> sch.active.None? && spec.repeat.Once? && sch.onceDone)
            && (reply.NotDue? ==>
                  reply.retryAfter > 0 && (PrepareStep(sch, true, spec, later).1.Ready? <==> later >= now + reply.retryAfter))
            && !reply.PrepareStale?
    ensures PrepareStep(states[i].schedule, false, spec, now) == (states[i].schedule, PrepareStale)
  {
    RunKeepsInv(states, actions, i);
    LeaderIsHandedTheWindow(states, actions, i, spec, now);
    LeaderIsHandedTheWindow(states, actions, i, spec, later);
  }

  /** Arguments outside the contract are refused before anything is looked at. */
  lemma BadArgumentsAreRefused(sch: Schedule, current: bool, spec: Spec, now: int, w: Window, slice: nat)
    ensures spec.version == 0 || spec.total == 0 || spec.total > MAX_DISPATCH_SLICES || spec.fingerprint == "" ==>
              PrepareStep(sch, current, spec, now) == (sch, PrepareInvalid)
    ensures spec.repeat.Every? && spec.repeat.ms < 1 ==> PrepareStep(sch, current, spec, now) == (sch, PrepareInvalid)
    ensures slice >= w.total || w.total > MAX_DISPATCH_SLICES ==> AckStep(sch, current, w, slice) == (sch, AckInvalid)
    ensures MAX_DISPATCH_SLICES == 4096
  {
  }

  // ---- Acknowledging -------------------------------------------------------------------------

  function LastOf(ids: seq<WindowId>): Option<WindowId> {
    if ids == [] then None else Some(ids[|ids| - 1])
  }

  lemma {:induction false} LastCompletedIsRecorded(states: seq<Sys>, actions: seq<Action>, i: nat)
    requires Run(states, actions) && i < |states|
    ensures states[i].schedule.lastCompleted == LastOf(states[i].completed)
  {
    if i > 0 {
      LastCompletedIsRecorded(states, actions, i - 1);
      RunKeepsInv(states, actions, i - 1);
      StepRecordsLast(states[i - 1], actions[i - 1], states[i]);
    }
  }

  lemma StepRecordsLast(s: Sys, a: Action, s': Sys)
    requires Inv(s) && Next(s, a, s') && s.schedule.lastCompleted == LastOf(s.completed)
    ensures s'.schedule.lastCompleted == LastOf(s'.completed)
  {
    if a.Prepare? {
      PrepareOpens(s, a.n, a.spec, a.delivered, s');
    }
  }

  lemma RemainingIsUnflagged(acks: set<nat>, total: nat)
    requires acks <= Upto(total)
    ensures |Missing(acks, total)| == total - |acks|
  {
    MissingMeansUnflagged(acks, total);
    FlagCountIsSize(acks, total);
    assert acks * Upto(total) == acks;
  }

  predicate IsOpen(sch: Schedule, w: Window) {
    sch.active.Some? && sch.active.value.id == w.id && sch.active.value.fingerprint == w.fingerprint
  }

  lemma AckOfOpenWindow(s: Sys, w: Window, slice: nat)
    requires Inv(s) && IsOpen(s.schedule, w) && w.total == w.id.total && slice < w.total
    ensures var sch, acks := s.schedule, s.schedule.acks + {slice};
            var (sch', reply) := AckStep(sch, true, w, slice);
            var left := |Missing(acks, w.total)|;
            if left > 0 then
              reply == Pending(left) && sch' == sch.(acks := acks, active := Some(sch.active.value.(ackCount := w.total - left)))
            else
              && reply.Complete? && sch'.active.None? && sch'.acks == {} && sch'.lastCompleted == Some(w.id)
              && (sch.active.value.repeat.Once? ==> sch'.onceDone && sch'.nextAt.None?)
              && (sch.active.value.repeat.Every? ==>
                    sch'.onceDone == sch.onceDone && sch'.nextAt == Some(w.id.scheduledAt + sch.active.value.repeat.ms))
  {
    var old', acks := s.schedule.acks, s.schedule.acks + {slice};
    RemainingIsUnflagged(acks, w.total);
    if slice in old' {
      assert acks == old';
    } else {
      assert |acks| == |old'| + 1;
    }
    if |acks| == w.total {
      assert acks - Upto(w.total) == {};
    }
  }

  /**
   A current leader's acknowledgement of a slice of the open window sets exactly its flag and reports
   how many slices are still without one; the last one finishes the window and sets the next time.
   Any other acknowledgement changes nothing; it is `Complete` exactly for the window finished last.
   */
  lemma AcknowledgementsAreExact(states: seq<Sys>, actions: seq<Action>, i: nat, w: Window, slice: nat)
    requires Run(states, actions) && i < |states| && w.total == w.id.total && slice < w.total <= MAX_DISPATCH_SLICES
    ensures var sch, acks := states[i].schedule, states[i].schedule.acks + {slice};
            var (sch', reply) := AckStep(sch, true, w, slice);
            var left := |Missing(acks, w.total)|;
            if IsOpen(sch, w) && left > 0 then
              reply == Pending(left) && sch' == sch.(acks := acks, active := Some(sch.active.value.(ackCount := w.total - left)))
            else if IsOpen(sch, w) then
              && reply.Complete? && sch'.active.None? && sch'.acks == {} && sch'.lastCompleted == Some(w.id)
              && (sch.active.value.repeat.Once? ==> sch'.onceDone && sch'.nextAt.None?)
              && (sch.active.value.repeat.Every? ==>
                    sch'.onceDone == sch.onceDone && sch'.nextAt == Some(w.id.scheduledAt + sch.active.value.repeat.ms))
            else
              sch' == sch && reply == if sch.active.None? && LastOf(states[i].completed) == Some(w.id) then Complete else AckInvalid
    ensures AckStep(states[i].schedule, false, w, slice) == (states[i].schedule, AckStale)
  {
    RunKeepsInv(states, actions, i);
    LastCompletedIsRecorded(states, actions, i);
    if IsOpen(states[i].schedule, w) {
      AckOfOpenWindow(states[i], w, slice);
    }
  }

  // ---- Electing ------------------------------------------------------------------------------

  /** An acquisition succeeds exactly when nobody leads, and makes the caller current for its whole lease. */
  lemma FreeElectionMakesALeader(states: seq<Sys>, actions: seq<Action>, i: nat, later: int)
    requires Run(states, actions) && i < |actions| && actions[i].Acquire?
    requires Next(states[i], actions[i], states[i + 1])
    ensures var a, s, s' := actions[i], states[i], states[i + 1];
            if s.election.leader.None? then
              var mine := Caller(a.token, s.election.fences + 1);
              && s'.election.fences == s.election.fences + 1
              && (a.delivered ==> s'.nodes[a.n].lease == Some(mine))
              && (IsCurrent(s'.(now := later), mine) <==> later < s.now + a.ttlMs)
            else s'.election == s.election && s'.nodes == s.nodes
  {
  }

  /** The current leader renews from now on and relinquishes at once; nobody else changes the election. */
  lemma OnlyTheHolderRenews(states: seq<Sys>, actions: seq<Action>, i: nat, later: int)
    requires Run(states, actions) && i < |actions| && (actions[i].Renew? || actions[i].Relinquish?)
    requires Next(states[i], actions[i], states[i + 1])
    ensures var a, s, s' := actions[i], states[i], states[i + 1];
            var mine := s.nodes[a.n].lease.value;
            if L.HeldBy(s.election, mine.token, mine.fence) then
              && s'.election.fences == s.election.fences
              && (a.Renew? ==> (IsCurrent(s'.(now := later), mine) <==> later < s.now + a.ttlMs))
              && (a.Relinquish? ==> s'.election.leader.None?)
            else s'.election == s.election
  {
  }
}
