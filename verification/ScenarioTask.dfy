/**
 One scenario execution as the runtime polls it: steps in order, a metrics lock before every record,
 and an optional deadline that cancels whatever is still waiting. Panics end a task at any poll.
 */
module ScenarioTask {
  import opened Common

  /** What the task waits for: step `n`, the lock after it, the lock for the verdict, or the lock after a timeout. */
  datatype Phase = Step(n: nat) | StepLock(n: nat, ok: bool) | Verdict(success: bool) | LateLock | Over

  /** One poll: whether what the task waits for is ready, how a step ended, and whether the deadline has passed. */
  datatype Poll = Poll(ready: bool, ok: bool, late: bool)

  /** `records` are the scenario records written so far, true for a success. */
  datatype Task = Task(phase: Phase, records: seq<bool>)

  function FirstPhase(steps: nat, n: nat): Phase {
    if n < steps then Step(n) else Verdict(true)
  }

  /** The deadline is consulted only when nothing is ready, and no longer once it has struck. */
  function Turn(steps: nat, timed: bool, t: Task, p: Poll): Task {
    if t.phase.Over? then t
    else if p.ready then
      match t.phase
      case Step(n) => t.(phase := StepLock(n, p.ok))
      case StepLock(n, ok) => t.(phase := if ok then FirstPhase(steps, n + 1) else Verdict(false))
      case Verdict(success) => Task(Over, t.records + [success])
      case LateLock => Task(Over, t.records + [false])
    else if timed && p.late then t.(phase := LateLock)
    else t
  }

  function Polled(steps: nat, timed: bool, polls: seq<Poll>): Task
    decreases |polls|
  {
    if polls == [] then Task(FirstPhase(steps, 0), [])
    else Turn(steps, timed, Polled(steps, timed, polls[..|polls| - 1]), polls[|polls| - 1])
  }

  /** How a task that was joined ended: by a panic before its record, or with nothing left to do. */
  datatype Ending = Ending(steps: nat, timed: bool, polls: seq<Poll>, panicked: bool)

  predicate Ended(e: Ending) {
    e.panicked <==> !Polled(e.steps, e.timed, e.polls).phase.Over?
  }

  function Records(e: Ending): seq<bool> {
    Polled(e.steps, e.timed, e.polls).records
  }

  /** However polls, failures and the deadline fall, a task has written one record exactly when it is over. */
  lemma {:induction false} OneRecordWhenOver(steps: nat, timed: bool, polls: seq<Poll>)
    ensures |Polled(steps, timed, polls).records| == if Polled(steps, timed, polls).phase.Over? then 1 else 0
    decreases |polls|
  {
    if polls != [] {
      OneRecordWhenOver(steps, timed, polls[..|polls| - 1]);
    }
  }

  /** A joined task counts once in the metrics exactly when it did not panic. */
  lemma EndedTaskIsRecordedOnce(e: Ending)
    requires Ended(e)
    ensures |Records(e)| == if e.panicked then 0 else 1
  {
    OneRecordWhenOver(e.steps, e.timed, e.polls);
  }

  /** Without a deadline only readiness and step results count: late polls and polls with nothing ready change nothing. */
  lemma {:induction false} UntimedTaskIgnoresTheClock(steps: nat, polls: seq<Poll>, others: seq<Poll>)
    requires |polls| == |others| && forall k :: 0 <= k < |polls| ==> polls[k].ready == others[k].ready && polls[k].ok == others[k].ok
    ensures Polled(steps, false, polls) == Polled(steps, false, others) && !Polled(steps, false, polls).phase.LateLock?
    ensures polls != [] && !polls[|polls| - 1].ready ==> Polled(steps, false, polls) == Polled(steps, false, polls[..|polls| - 1])
    decreases |polls|
  {
    if polls != [] {
      var n := |polls| - 1;
      UntimedTaskIgnoresTheClock(steps, polls[..n], others[..n]);
    }
  }

  /** Every step answered in order, each with success. */
  ghost predicate AllStepsPassed(steps: nat, polls: seq<Poll>) {
    && |polls| == 2 * steps + 1
    && forall k :: 0 <= k < |polls| ==> polls[k].ready && polls[k].ok
  }

  lemma {:induction false} StepsPass(steps: nat, timed: bool, polls: seq<Poll>, n: nat)
    requires n <= steps && |polls| == 2 * n && forall k :: 0 <= k < |polls| ==> polls[k].ready && polls[k].ok
    ensures Polled(steps, timed, polls) == Task(FirstPhase(steps, n), [])
    decreases n
  {
    if n > 0 {
      var one := polls[..|polls| - 1];
      var two := one[..|one| - 1];
      assert two == polls[..2 * (n - 1)];
      StepsPass(steps, timed, two, n - 1);
      assert Polled(steps, timed, one) == Turn(steps, timed, Polled(steps, timed, two), one[|one| - 1]);
      assert Polled(steps, timed, polls) == Turn(steps, timed, Polled(steps, timed, one), polls[|polls| - 1]);
    }
  }

  /** A run in which every step passes before the deadline is recorded as a success. */
  lemma PassingTaskSucceeds(steps: nat, timed: bool, polls: seq<Poll>)
    requires AllStepsPassed(steps, polls)
    ensures Polled(steps, timed, polls) == Task(Over, [true])
  {
    var init := polls[..|polls| - 1];
    StepsPass(steps, timed, init, steps);
  }

  /** Only a task whose every step passed is recorded as a success; a timeout or a failed step is not. */
  lemma {:induction false} FailureIsRecorded(steps: nat, timed: bool, polls: seq<Poll>, k: nat)
    requires k < |polls|
    requires var before := Polled(steps, timed, polls[..k]).phase;
             (before.Step? && polls[k].ready && !polls[k].ok) || (!before.Over? && !polls[k].ready && timed && polls[k].late)
    ensures var t := Polled(steps, timed, polls); Doomed(t.phase) || t.records == [false]
    decreases |polls|
  {
    var init := polls[..|polls| - 1];
    OneRecordWhenOver(steps, timed, init);
    if k < |polls| - 1 {
      assert init[..k] == polls[..k];
      FailureIsRecorded(steps, timed, init, k);
    }
  }

  predicate Doomed(phase: Phase) {
    phase.LateLock? || phase == Verdict(false) || (phase.StepLock? && !phase.ok)
  }
}
