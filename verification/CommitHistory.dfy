/**
 The commit fence over whole runs: the broker is only asked for records whose epoch and assignment were
 checked, and a worker goes on only after its commit was applied and both checks held again.
 */
module CommitHistory {
  import opened Common
  import opened Settlement
  import opened CommitOrder

  /** Before step `i`, a commit task of `n` for record `f` took step `t`. */
  ghost predicate Took(states: seq<Sys>, actions: seq<Action>, i: nat, n: NodeId, f: Fetched, t: TaskAction, j: nat) {
    && j < i < |states| == |actions| + 1 && actions[j] == CommitTask(n, t)
    && n in states[j].nodes && states[j].nodes[n].task.Some? && states[j].nodes[n].task.value.record == f
  }

  /** A check of the rebalance epoch found the epoch the record was stamped with. */
  ghost predicate EpochHeld(states: seq<Sys>, actions: seq<Action>, i: nat, n: NodeId, f: Fetched, t: TaskAction) {
    exists j: nat :: Took(states, actions, i, n, f, t, j) && states[j].nodes[n].epoch == f.epoch
  }

  /** A check of the assignment found the record's partition. */
  ghost predicate AssignmentHeld(states: seq<Sys>, actions: seq<Action>, i: nat, n: NodeId, f: Fetched, t: TaskAction) {
    exists j: nat :: Took(states, actions, i, n, f, t, j) && f.partition in states[j].nodes[n].positions
  }

  ghost predicate WasApplied(states: seq<Sys>, actions: seq<Action>, i: nat, n: NodeId, f: Fetched) {
    exists j: nat :: Took(states, actions, i, n, f, BrokerApplies, j)
  }

  ghost predicate FirstChecksHeld(states: seq<Sys>, actions: seq<Action>, i: nat, n: NodeId, f: Fetched) {
    EpochHeld(states, actions, i, n, f, CheckEpoch) && AssignmentHeld(states, actions, i, n, f, CheckAssignment)
  }

  ghost predicate LastChecksHeld(states: seq<Sys>, actions: seq<Action>, i: nat, n: NodeId, f: Fetched) {
    EpochHeld(states, actions, i, n, f, RecheckEpoch) && AssignmentHeld(states, actions, i, n, f, RecheckAssignment)
  }

  /** What must have happened for a task to be where it is. */
  ghost predicate Explained(states: seq<Sys>, actions: seq<Action>, i: nat, n: NodeId, f: Fetched, phase: Phase) {
    match phase
    case Begun => true
    case EpochOk => EpochHeld(states, actions, i, n, f, CheckEpoch)
    case InFlight(applied) =>
      FirstChecksHeld(states, actions, i, n, f) && (applied ==> WasApplied(states, actions, i, n, f))
    case Replied(ok) => FirstChecksHeld(states, actions, i, n, f) && (ok ==> WasApplied(states, actions, i, n, f))
    case Rechecked(ok) =>
      && FirstChecksHeld(states, actions, i, n, f) && (ok ==> WasApplied(states, actions, i, n, f))
      && EpochHeld(states, actions, i, n, f, RecheckEpoch)
    case Finished(ok) =>
      ok ==> FirstChecksHeld(states, actions, i, n, f) && WasApplied(states, actions, i, n, f) && LastChecksHeld(states, actions, i, n, f)
  }

  lemma HeldStays(states: seq<Sys>, actions: seq<Action>, i: nat, n: NodeId, f: Fetched, t: TaskAction)
    requires i + 1 < |states|
    ensures EpochHeld(states, actions, i, n, f, t) ==> EpochHeld(states, actions, i + 1, n, f, t)
    ensures AssignmentHeld(states, actions, i, n, f, t) ==> AssignmentHeld(states, actions, i + 1, n, f, t)
    ensures WasApplied(states, actions, i, n, f) ==> WasApplied(states, actions, i + 1, n, f)
  {
    if EpochHeld(states, actions, i, n, f, t) {
      var j: nat :| Took(states, actions, i, n, f, t, j) && states[j].nodes[n].epoch == f.epoch;
      assert Took(states, actions, i + 1, n, f, t, j);
    }
    if AssignmentHeld(states, actions, i, n, f, t) {
      var j: nat :| Took(states, actions, i, n, f, t, j) && f.partition in states[j].nodes[n].positions;
      assert Took(states, actions, i + 1, n, f, t, j);
    }
    if WasApplied(states, actions, i, n, f) {
      var j: nat :| Took(states, actions, i, n, f, BrokerApplies, j);
      assert Took(states, actions, i + 1, n, f, BrokerApplies, j);
    }
  }

  lemma ExplainedStays(states: seq<Sys>, actions: seq<Action>, i: nat, n: NodeId, f: Fetched, phase: Phase)
    requires i + 1 < |states| && Explained(states, actions, i, n, f, phase)
    ensures Explained(states, actions, i + 1, n, f, phase)
  {
    HeldStays(states, actions, i, n, f, CheckEpoch);
    HeldStays(states, actions, i, n, f, CheckAssignment);
    HeldStays(states, actions, i, n, f, RecheckEpoch);
    HeldStays(states, actions, i, n, f, RecheckAssignment);
  }

  /** A step that is not one of the task's own leaves it alone, starts one, or ends it. */
  lemma OtherStepsKeepTask(s: Sys, a: Action, s': Sys, n: NodeId)
    requires Next(s, a, s') && n in s'.nodes && s'.nodes[n].task.Some? && !(a.CommitTask? && a.n == n)
    ensures s'.nodes[n].task.value.phase.Begun? || (n in s.nodes && s.nodes[n].task == s'.nodes[n].task)
  {
    match a
    case Work(m, w) => WorkStepFrame(s, m, w, s');
    case CommitTask(m, t) => TaskStepFrame(s, m, t, s');
    case Group(m, g) =>
      if m != n {
        GroupStepFrame(s, m, g, s');
      } else {
        OwnGroupStep(s, n, g, s');
      }
    case _ =>
  }

  lemma OwnGroupStep(s: Sys, n: NodeId, g: GroupAction, s': Sys)
    requires GroupStep(s, n, g, s') && n in s'.nodes && s'.nodes[n].task.Some?
    ensures s'.nodes[n].task.value.phase.Begun? || (n in s.nodes && s.nodes[n].task == s'.nodes[n].task)
  {
  }

  /** The task's own steps are explained by the checks they make. */
  lemma TaskStepExplains(states: seq<Sys>, actions: seq<Action>, i: nat, n: NodeId, t: TaskAction)
    requires i + 1 < |states| == |actions| + 1 && actions[i] == CommitTask(n, t) && TaskStep(states[i], n, t, states[i + 1])
    requires n in states[i].nodes && states[i].nodes[n].task.Some? && n in states[i + 1].nodes && states[i + 1].nodes[n].task.Some?
    requires Explained(states, actions, i + 1, n, states[i].nodes[n].task.value.record, states[i].nodes[n].task.value.phase)
    ensures var task := states[i + 1].nodes[n].task.value; Explained(states, actions, i + 1, n, task.record, task.phase)
  {
    assert Took(states, actions, i + 1, n, states[i].nodes[n].task.value.record, t, i);
  }

  ghost predicate TaskExplained(states: seq<Sys>, actions: seq<Action>, i: nat, n: NodeId)
    requires i < |states|
  {
    n in states[i].nodes && states[i].nodes[n].task.Some? ==>
      Explained(states, actions, i, n, states[i].nodes[n].task.value.record, states[i].nodes[n].task.value.phase)
  }

  lemma OwnStepIsExplained(states: seq<Sys>, actions: seq<Action>, i: nat, n: NodeId, t: TaskAction)
    requires i + 1 < |states| == |actions| + 1 && actions[i] == CommitTask(n, t) && TaskStep(states[i], n, t, states[i + 1])
    requires TaskExplained(states, actions, i, n)
    ensures TaskExplained(states, actions, i + 1, n)
  {
    var task := states[i].nodes[n].task.value;
    ExplainedStays(states, actions, i, n, task.record, task.phase);
    TaskStepFrame(states[i], n, t, states[i + 1]);
    TaskStepExplains(states, actions, i, n, t);
  }

  lemma OtherStepIsExplained(states: seq<Sys>, actions: seq<Action>, i: nat, n: NodeId)
    requires i + 1 < |states| == |actions| + 1 && Next(states[i], actions[i], states[i + 1]) && !(actions[i].CommitTask? && actions[i].n == n)
    requires TaskExplained(states, actions, i, n)
    ensures TaskExplained(states, actions, i + 1, n)
  {
    if n in states[i + 1].nodes && states[i + 1].nodes[n].task.Some? {
      var task := states[i + 1].nodes[n].task.value;
      OtherStepsKeepTask(states[i], actions[i], states[i + 1], n);
      if !task.phase.Begun? {
        ExplainedStays(states, actions, i, n, task.record, task.phase);
      }
    }
  }

  lemma StepIsExplained(states: seq<Sys>, actions: seq<Action>, i: nat, n: NodeId)
    requires i + 1 < |states| == |actions| + 1 && Next(states[i], actions[i], states[i + 1]) && TaskExplained(states, actions, i, n)
    ensures TaskExplained(states, actions, i + 1, n)
  {
    if actions[i].CommitTask? && actions[i].n == n {
      OwnStepIsExplained(states, actions, i, n, actions[i].t);
    } else {
      OtherStepIsExplained(states, actions, i, n);
    }
  }

  lemma {:induction false} TasksAreExplained(states: seq<Sys>, actions: seq<Action>, i: nat, n: NodeId)
    requires Run(states, actions) && i < |states|
    ensures TaskExplained(states, actions, i, n)
  {
    if i > 0 {
      TasksAreExplained(states, actions, i - 1, n);
      StepIsExplained(states, actions, i - 1, n);
    }
  }

  /** In every run, whatever the broker applies was found in its own epoch and still assigned before. */
  lemma OnlyCheckedCommitsAreApplied(states: seq<Sys>, actions: seq<Action>, i: nat, n: NodeId)
    requires Run(states, actions) && i < |actions| && actions[i] == CommitTask(n, BrokerApplies)
    ensures n in states[i].nodes && states[i].nodes[n].task.Some?
    ensures FirstChecksHeld(states, actions, i, n, states[i].nodes[n].task.value.record)
  {
    assert Next(states[i], actions[i], states[i + 1]);
    TasksAreExplained(states, actions, i, n);
  }

  /**
   In every run, a worker takes up its next record only after the commit of the last one was checked,
   applied by the broker and checked again; otherwise it stops.
   */
  lemma WorkerGoesOnOnlyAfterItsCommit(states: seq<Sys>, actions: seq<Action>, i: nat, n: NodeId)
    requires Run(states, actions) && i < |actions| && actions[i] == Group(n, FinishCommit)
    ensures n in states[i].nodes && states[i].nodes[n].task.Some? && states[i].nodes[n].work.Working? && n in states[i + 1].nodes
    ensures states[i + 1].nodes[n].work.Idle? || states[i + 1].nodes[n].work.Stopped?
    ensures states[i + 1].nodes[n].work.Idle? ==>
              var f := states[i].nodes[n].task.value.record;
              FirstChecksHeld(states, actions, i, n, f) && WasApplied(states, actions, i, n, f) && LastChecksHeld(states, actions, i, n, f)
  {
    assert Next(states[i], actions[i], states[i + 1]);
    TasksAreExplained(states, actions, i, n);
  }

  /**
   An overtaken commit that the broker applies needs a rebalance in one of two windows: between receipt and
   stamp, or after the epoch check that found the record's epoch and before the broker.
   */
  lemma LateCommitSlipsPastTheCheck(states: seq<Sys>, actions: seq<Action>, i: nat) returns (j: nat)
    requires Run(states, actions) && i < |actions| && LateCommit(states[i], actions[i])
    ensures var n := actions[i].n;
            var f := states[i].nodes[n].task.value.record;
            Took(states, actions, i, n, f, CheckEpoch, j) && (f.taken < f.epoch || states[j].nodes[n].epoch == f.epoch < states[i].nodes[n].epoch)
  {
    var n := actions[i].n;
    LateCommitNeedsCycleInWindow(states, actions, i);
    OnlyCheckedCommitsAreApplied(states, actions, i, n);
    var f := states[i].nodes[n].task.value.record;
    j :| Took(states, actions, i, n, f, CheckEpoch, j) && states[j].nodes[n].epoch == f.epoch;
  }
}
