/**
 What a worker must do, beside what it must not: a record whose worker keeps its partition can always be
 served to its commit with exactly one output, a finished job is committed without another output, and a
 worker that lost its lease or its claim's answer stops with the offset uncommitted.
 */
module SettlementAnswers {
  import opened Common
  import E = ExecutionLease
  import opened Settlement
  import opened CommitWitness

  /** Worker `n` is at `stage` of a record of a partition it still owns, since before it received it. */
  ghost predicate Serving(s: Sys, n: NodeId, f: Fetched, stage: Stage) {
    && n in s.nodes && s.nodes[n].work == Working(f, stage) && s.nodes[n].task.None?
    && HeadExists(s, f) && f.epoch == s.nodes[n].epoch && f.partition in s.nodes[n].positions && BrokerOwner(s, f.partition, n)
  }

  function JobAt(s: Sys, f: Fetched): Job
    requires HeadExists(s, f) && s.log[f.partition][f.offset].Decoded?
  {
    s.log[f.partition][f.offset].job
  }

  // ---- From a settled record to its commit -------------------------------------------------------

  function Committed(s: Sys, n: NodeId, f: Fetched): Sys {
    s.(committed := s.committed[f.partition := f.offset + 1], commits := s.commits + [Commit(n, f.partition, f.offset)])
  }

  /** The worker is done with the record, and the partition resumes after it. */
  function Done(s: Sys, n: NodeId, f: Fetched): Sys
    requires n in s.nodes
  {
    With(Committed(s, n, f), n, s.nodes[n].(work := Idle))
  }

  function InTask(node: Node, f: Fetched, phase: Phase): Node {
    node.(work := Working(f, Committing), task := Some(Task(f, phase)))
  }

  lemma CommitChecks(s: Sys, n: NodeId, f: Fetched)
    requires Serving(s, n, f, Settled)
    ensures Reaches(s, With(s, n, InTask(s.nodes[n], f, InFlight(false))))
  {
    var node := s.nodes[n];
    var s1, s2, s3 := With(s, n, InTask(node, f, Begun)), With(s, n, InTask(node, f, EpochOk)), With(s, n, InTask(node, f, InFlight(false)));
    ReachesOne(s, Group(n, StartCommit), s1);
    WithTwice(s, n, InTask(node, f, Begun), InTask(node, f, EpochOk));
    ReachesThen(s, s1, CommitTask(n, CheckEpoch), s2);
    WithTwice(s, n, InTask(node, f, EpochOk), InTask(node, f, InFlight(false)));
    ReachesThen(s, s2, CommitTask(n, CheckAssignment), s3);
  }

  lemma CommitApplies(s: Sys, n: NodeId, f: Fetched)
    requires Serving(s, n, f, Settled)
    ensures var node, c := s.nodes[n], Committed(s, n, f);
            Reaches(With(s, n, InTask(node, f, InFlight(false))), With(c, n, InTask(node, f, Replied(true))))
  {
    var node, c := s.nodes[n], Committed(s, n, f);
    var s3, s4, s5 := With(s, n, InTask(node, f, InFlight(false))), With(c, n, InTask(node, f, InFlight(true))), With(c, n, InTask(node, f, Replied(true)));
    WithTwice(s, n, InTask(node, f, InFlight(false)), InTask(node, f, InFlight(true)));
    ReachesOne(s3, CommitTask(n, BrokerApplies), s4);
    WithTwice(c, n, InTask(node, f, InFlight(true)), InTask(node, f, Replied(true)));
    ReachesThen(s3, s4, CommitTask(n, BrokerAnswers(true)), s5);
  }

  lemma CommitRechecks(s: Sys, n: NodeId, f: Fetched)
    requires Serving(s, n, f, Settled)
    ensures Reaches(With(Committed(s, n, f), n, InTask(s.nodes[n], f, Replied(true))), Done(s, n, f))
  {
    var node, c := s.nodes[n], Committed(s, n, f);
    var s5, s6, s7 := With(c, n, InTask(node, f, Replied(true))), With(c, n, InTask(node, f, Rechecked(true))), With(c, n, InTask(node, f, Finished(true)));
    WithTwice(c, n, InTask(node, f, Replied(true)), InTask(node, f, Rechecked(true)));
    ReachesOne(s5, CommitTask(n, RecheckEpoch), s6);
    WithTwice(c, n, InTask(node, f, Rechecked(true)), InTask(node, f, Finished(true)));
    ReachesThen(s5, s6, CommitTask(n, RecheckAssignment), s7);
    WithTwice(c, n, InTask(node, f, Finished(true)), node.(work := Idle));
    ReachesThen(s5, s7, Group(n, FinishCommit), Done(s, n, f));
  }

  /** A settled record of a kept partition can be committed, and nothing else changes. */
  lemma SettledRecordIsCommitted(s: Sys, n: NodeId, f: Fetched)
    requires Serving(s, n, f, Settled)
    ensures Reaches(s, Done(s, n, f))
  {
    CommitChecks(s, n, f);
    CommitApplies(s, n, f);
    CommitRechecks(s, n, f);
    var node := s.nodes[n];
    var s3, s5 := With(s, n, InTask(node, f, InFlight(false))), With(Committed(s, n, f), n, InTask(node, f, Replied(true)));
    ReachesThrough(s, s3, s5);
    ReachesThrough(s, s5, Done(s, n, f));
  }

  // ---- Serving a job ----------------------------------------------------------------------------------

  /** No live lease and no outcome: the job was never claimed, or its lease ran out. */
  ghost predicate Claimable(s: Sys, c: E.Claim, now: int) {
    c in s.execs ==> E.SameIdentity(s.execs[c], c) && s.execs[c].state.Running? && s.execs[c].state.leaseUntil <= now
  }

  /** Redis holds a lease of `token` on the job that runs past `now`. */
  ghost predicate HoldsLease(s: Sys, c: E.Claim, token: Token, now: int) {
    && c in s.execs && E.SameIdentity(s.execs[c], c) && s.execs[c].owner == token
    && s.execs[c].state.Running? && now < s.execs[c].state.leaseUntil
  }

  ghost predicate RecordsOutcome(s: Sys, c: E.Claim, outcome: E.Outcome) {
    c in s.execs && E.SameIdentity(s.execs[c], c) && s.execs[c].state.Terminal? && s.execs[c].state.outcome == outcome
  }

  /** Nothing but the execution record of `c` and the stage of `n` differs. */
  ghost predicate OnlyLeaseMoves(s: Sys, s': Sys, n: NodeId, c: E.Claim, f: Fetched, stage: Stage) {
    && n in s.nodes && s' == s.(execs := s'.execs, nodes := s.nodes[n := s.nodes[n].(work := Working(f, stage))])
    && forall d :: d != c ==> (d in s'.execs <==> d in s.execs) && (d in s.execs ==> s'.execs[d] == s.execs[d])
  }

  lemma ClaimIsGranted(s: Sys, n: NodeId, f: Fetched, token: Token, now: int, t: E.Timings) returns (s': Sys)
    requires Serving(s, n, f, Fresh) && s.log[f.partition][f.offset].Decoded? && E.ValidTimings(t) && Claimable(s, ClaimOf(JobAt(s, f)), now)
    ensures Next(s, Work(n, Claim(token, now, t, true)), s') && Serving(s', n, f, Leased(token))
    ensures OnlyLeaseMoves(s, s', n, ClaimOf(JobAt(s, f)), f, Leased(token)) && HoldsLease(s', ClaimOf(JobAt(s, f)), token, now)
  {
    var c := ClaimOf(JobAt(s, f));
    var rec := E.ClaimStep(Exec(s, c), c, token, now, t).0;
    s' := WithWork(WithExec(s, c, rec), n, Working(f, Leased(token)));
  }

  lemma OutcomeIsChosen(s: Sys, n: NodeId, f: Fetched, token: Token, outcome: E.Outcome) returns (s': Sys)
    requires Serving(s, n, f, Leased(token)) && s.log[f.partition][f.offset].Decoded?
    requires outcome.RetryPublished? ==> JobAt(s, f).attempt < JobAt(s, f).maxRetries
    ensures Next(s, Work(n, Decide(outcome)), s') && s' == WithWork(s, n, Working(f, Chosen(token, outcome)))
    ensures Serving(s', n, f, Chosen(token, outcome))
  {
    s' := WithWork(s, n, Working(f, Chosen(token, outcome)));
  }

  lemma OutputIsPublished(s: Sys, n: NodeId, f: Fetched, token: Token, outcome: E.Outcome, to: Partition) returns (s': Sys)
    requires Serving(s, n, f, Chosen(token, outcome)) && s.log[f.partition][f.offset].Decoded? && to in s.log
    ensures Next(s, Work(n, PublishOutput(to, true)), s') && Serving(s', n, f, Published(token, outcome))
    ensures HeadExists(s', f) && s'.log[f.partition][f.offset] == s.log[f.partition][f.offset]
    ensures s' == WithWork(Publish(s, JobAt(s, f), outcome, to), n, Working(f, Published(token, outcome)))
  {
    s' := WithWork(Publish(s, JobAt(s, f), outcome, to), n, Working(f, Published(token, outcome)));
  }

  lemma OutcomeIsRecorded(s: Sys, n: NodeId, f: Fetched, token: Token, outcome: E.Outcome, now: int, t: E.Timings) returns (s': Sys)
    requires Serving(s, n, f, Published(token, outcome)) && s.log[f.partition][f.offset].Decoded?
    requires HoldsLease(s, ClaimOf(JobAt(s, f)), token, now)
    ensures Next(s, Work(n, Complete(now, t, true)), s') && Serving(s', n, f, Settled)
    ensures OnlyLeaseMoves(s, s', n, ClaimOf(JobAt(s, f)), f, Settled) && RecordsOutcome(s', ClaimOf(JobAt(s, f)), outcome)
  {
    var c := ClaimOf(JobAt(s, f));
    var rec := E.CompleteStep(Exec(s, c), c, token, outcome, now, t).0;
    s' := WithWork(WithExec(s, c, rec), n, Working(f, Settled));
  }

  /** The one output of the job, its outcome in Redis, its offset committed, the worker free, all else as it was. */
  ghost predicate Served(s: Sys, s': Sys, n: NodeId, f: Fetched, outcome: E.Outcome, to: Partition)
    requires HeadExists(s, f) && s.log[f.partition][f.offset].Decoded? && to in s.log && n in s.nodes
  {
    var j := JobAt(s, f);
    && s' == Done(Publish(s, j, outcome, to), n, f).(execs := s'.execs)
    && RecordsOutcome(s', ClaimOf(j), outcome) && Durable(s', ClaimOf(j), outcome)
    && forall d :: d != ClaimOf(j) ==> (d in s'.execs <==> d in s.execs) && (d in s.execs ==> s'.execs[d] == s.execs[d])
  }

  lemma OutputIsDurable(s: Sys, j: Job, outcome: E.Outcome, to: Partition, s': Sys)
    requires to in s.log && (outcome.RetryPublished? ==> j.attempt < j.maxRetries)
    requires var p := Publish(s, j, outcome, to); s'.results == p.results && s'.dead == p.dead && s'.log == p.log
    ensures Durable(s', ClaimOf(j), outcome)
  {
    if outcome.RetryPublished? {
      var next := Job(j.key, j.attempt + 1, j.maxRetries);
      assert s'.log[to][|s.log[to]|] == Decoded(next);
      assert InLog(s', next);
      assert RetryInLog(s', ClaimOf(j), j.maxRetries);
    }
  }

  lemma ServedParts(s: Sys, s1: Sys, s2: Sys, s3: Sys, s4: Sys, n: NodeId, f: Fetched, token: Token, outcome: E.Outcome, to: Partition)
    requires Serving(s, n, f, Fresh) && s.log[f.partition][f.offset].Decoded? && to in s.log
    requires outcome.RetryPublished? ==> JobAt(s, f).attempt < JobAt(s, f).maxRetries
    requires OnlyLeaseMoves(s, s1, n, ClaimOf(JobAt(s, f)), f, Leased(token)) && s2 == WithWork(s1, n, Working(f, Chosen(token, outcome)))
    requires to in s2.log && s3 == WithWork(Publish(s2, JobAt(s, f), outcome, to), n, Working(f, Published(token, outcome)))
    requires OnlyLeaseMoves(s3, s4, n, ClaimOf(JobAt(s, f)), f, Settled) && RecordsOutcome(s4, ClaimOf(JobAt(s, f)), outcome)
    ensures Served(s, Done(s4, n, f), n, f, outcome, to)
  {
    var j, p := JobAt(s, f), Publish(s, JobAt(s, f), outcome, to);
    assert s4.nodes[n := s4.nodes[n].(work := Idle)] == s.nodes[n := s.nodes[n].(work := Idle)];
    assert Done(s4, n, f) == Done(p, n, f).(execs := s4.execs);
    OutputIsDurable(s, j, outcome, to, Done(s4, n, f));
  }

  /**
   A claimable job of a kept partition can be served to any outcome its attempts allow. The run publishes
   that one output, records the outcome and commits the offset, and touches nothing else.
   */
  lemma JobIsServed(s: Sys, n: NodeId, f: Fetched, token: Token, outcome: E.Outcome, now: int, t: E.Timings, to: Partition) returns (s': Sys)
    requires Serving(s, n, f, Fresh) && s.log[f.partition][f.offset].Decoded? && to in s.log && E.ValidTimings(t)
    requires Claimable(s, ClaimOf(JobAt(s, f)), now) && (outcome.RetryPublished? ==> JobAt(s, f).attempt < JobAt(s, f).maxRetries)
    ensures Reaches(s, s') && Served(s, s', n, f, outcome, to)
  {
    var s1 := ClaimIsGranted(s, n, f, token, now, t);
    var s2 := OutcomeIsChosen(s1, n, f, token, outcome);
    var s3 := OutputIsPublished(s2, n, f, token, outcome, to);
    var s4 := OutcomeIsRecorded(s3, n, f, token, outcome, now, t);
    ReachesOne(s, Work(n, Claim(token, now, t, true)), s1);
    ReachesThen(s, s1, Work(n, Decide(outcome)), s2);
    ReachesThen(s, s2, Work(n, PublishOutput(to, true)), s3);
    ReachesThen(s, s3, Work(n, Complete(now, t, true)), s4);
    SettledRecordIsCommitted(s4, n, f);
    s' := Done(s4, n, f);
    ReachesThrough(s, s4, s');
    ServedParts(s, s1, s2, s3, s4, n, f, token, outcome, to);
  }

  /** A job whose outcome is recorded is committed as it is: no second output, no change in Redis. */
  lemma FinishedJobIsOnlyCommitted(s: Sys, n: NodeId, f: Fetched, token: Token, outcome: E.Outcome, now: int, t: E.Timings)
    requires Serving(s, n, f, Fresh) && s.log[f.partition][f.offset].Decoded? && RecordsOutcome(s, ClaimOf(JobAt(s, f)), outcome)
    ensures Reaches(s, Done(s, n, f))
  {
    var s1 := WithWork(s, n, Working(f, Settled));
    var c := ClaimOf(JobAt(s, f));
    assert s.execs[c := s.execs[c]] == s.execs;
    ReachesOne(s, Work(n, Claim(token, now, t, true)), s1);
    SettledRecordIsCommitted(s1, n, f);
    WithTwice(Committed(s, n, f), n, s1.nodes[n], s.nodes[n].(work := Idle));
    ReachesThrough(s, s1, Done(s, n, f));
  }

  /** An undecodable record gets its poison record, a job that can never run its dead letter, and then the commit. */
  lemma UnrunnableRecordIsCommitted(s: Sys, n: NodeId, f: Fetched)
    requires Serving(s, n, f, Fresh)
    ensures var kept := if s.log[f.partition][f.offset].Poison? then s.(poison := s.poison + {(f.partition, f.offset)})
                        else s.(dead := s.dead + {ClaimOf(JobAt(s, f))});
            Reaches(s, Done(kept, n, f))
  {
    var kept := if s.log[f.partition][f.offset].Poison? then s.(poison := s.poison + {(f.partition, f.offset)})
                else s.(dead := s.dead + {ClaimOf(JobAt(s, f))});
    var s2 := WithWork(kept, n, Working(f, Settled));
    if s.log[f.partition][f.offset].Poison? {
      ReachesOne(s, Work(n, PublishPoison(true)), s2);
    } else {
      var s1 := WithWork(s, n, Working(f, Rejecting));
      ReachesOne(s, Work(n, Reject), s1);
      WithTwice(kept, n, s1.nodes[n], s2.nodes[n]);
      ReachesThen(s, s1, Work(n, PublishRejected(true)), s2);
    }
    SettledRecordIsCommitted(s2, n, f);
    WithTwice(Committed(kept, n, f), n, s2.nodes[n], s.nodes[n].(work := Idle));
    ReachesThrough(s, s2, Done(kept, n, f));
  }

  // ---- When the worker may not go on -------------------------------------------------------------------

  /** A job under another worker's live lease is waited for: the claim changes nothing at all. */
  lemma LiveLeaseIsWaitedFor(s: Sys, n: NodeId, f: Fetched, token: Token, now: int, t: E.Timings, other: Token, s': Sys)
    requires Serving(s, n, f, Fresh) && s.log[f.partition][f.offset].Decoded? && HoldsLease(s, ClaimOf(JobAt(s, f)), other, now)
    requires Next(s, Work(n, Claim(token, now, t, true)), s')
    ensures s' == s
  {
    var c := ClaimOf(JobAt(s, f));
    assert s.execs[c := s.execs[c]] == s.execs;
    assert s.nodes[n := s.nodes[n].(work := Working(f, Fresh))] == s.nodes;
  }

  /** The execution record gives `token` nothing: expired away, taken over, or its lease ran out. */
  ghost predicate Lost(s: Sys, c: E.Claim, token: Token, now: int) {
    c in s.execs ==>
      && E.SameIdentity(s.execs[c], c)
      && (s.execs[c].owner != token || (s.execs[c].state.Running? && s.execs[c].state.leaseUntil <= now))
  }

  /** A worker that published but lost its lease stops: no outcome of its is recorded and its offset stays uncommitted. */
  lemma LostWorkerStops(s: Sys, n: NodeId, f: Fetched, token: Token, outcome: E.Outcome, now: int, t: E.Timings, s': Sys)
    requires Serving(s, n, f, Published(token, outcome)) && s.log[f.partition][f.offset].Decoded? && Lost(s, ClaimOf(JobAt(s, f)), token, now)
    requires Next(s, Work(n, Complete(now, t, true)), s')
    ensures s' == WithWork(s, n, Stopped)
  {
    var c := ClaimOf(JobAt(s, f));
    if c in s.execs {
      assert s.execs[c := s.execs[c]] == s.execs;
    } else {
      assert s.execs - {c} == s.execs;
    }
  }

  /** An output that Kafka did not acknowledge, or an outcome Redis did not confirm, is tried again. */
  lemma UnconfirmedStepIsRepeated(s: Sys, n: NodeId, f: Fetched, stage: Stage, w: WorkAction, s': Sys)
    requires Serving(s, n, f, stage) && Next(s, Work(n, w), s')
    requires match w
             case PublishPoison(acked) => !acked
             case PublishRejected(acked) => !acked
             case PublishOutput(_, acked) => !acked
             case Complete(_, _, delivered) => !delivered
             case _ => false
    ensures s'.nodes == s.nodes && s'.committed == s.committed
  {
    assert s.nodes[n := s.nodes[n].(work := Working(f, stage))] == s.nodes;
  }

  /** A claim whose answer is lost or that finds a foreign record stops the worker with the offset uncommitted. */
  lemma UnclearClaimStops(s: Sys, n: NodeId, f: Fetched, token: Token, now: int, t: E.Timings, delivered: bool, s': Sys)
    requires Serving(s, n, f, Fresh) && s.log[f.partition][f.offset].Decoded? && Next(s, Work(n, Claim(token, now, t, delivered)), s')
    requires var c := ClaimOf(JobAt(s, f)); !delivered || (c in s.execs && !E.SameIdentity(s.execs[c], c))
    ensures s'.nodes == s.nodes[n := s.nodes[n].(work := Stopped)] && s'.committed == s.committed
  {
  }

  /** A renewal leaves the worker and everything but its own execution record alone. */
  lemma RenewalKeepsWorking(s: Sys, n: NodeId, f: Fetched, stage: Stage, now: int, t: E.Timings, s': Sys)
    requires Serving(s, n, f, stage) && s.log[f.partition][f.offset].Decoded? && Next(s, Work(n, Renew(now, t)), s')
    ensures s' == s.(execs := s'.execs) && forall d :: d != ClaimOf(JobAt(s, f)) && d in s.execs ==> d in s'.execs && s'.execs[d] == s.execs[d]
  {
    assert s.nodes[n := s.nodes[n].(work := Working(f, stage))] == s.nodes;
  }
}
