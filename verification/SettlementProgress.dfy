/**
 Whatever has happened, the work can still be finished: from every state of every run, crashes and lost
 leases included, one new member of the group can serve and commit everything in the log.
 */
module SettlementProgress {
  import opened Common
  import E = ExecutionLease
  import opened Settlement
  import opened CommitWitness
  import opened SettlementAnswers

  /** Every execution record is stored under its own identity. */
  ghost predicate WellKeyed(s: Sys) {
    forall c :: c in s.execs ==> E.SameIdentity(s.execs[c], c)
  }

  lemma EffectKeepsKeys(s: Sys, f: Fetched, r: Record, stage: Stage, w: WorkAction)
    requires WellKeyed(s) && WorkEnabled(s, r, stage, w)
    ensures WellKeyed(WorkEffect(s, f, r, stage, w))
  {
  }

  lemma NextKeepsKeys(s: Sys, a: Action, s': Sys)
    requires WellKeyed(s) && Next(s, a, s')
    ensures WellKeyed(s')
  {
    match a
    case Work(n, w) => EffectKeepsKeys(s, s.nodes[n].work.head, HeadRecord(s, n), s.nodes[n].work.stage, w);
    case Group(n, g) => GroupStepFrame(s, n, g, s');
    case CommitTask(n, t) => TaskStepFrame(s, n, t, s');
    case _ =>
  }

  lemma {:induction false} RunKeepsKeys(states: seq<Sys>, actions: seq<Action>, i: nat)
    requires Run(states, actions) && i < |states|
    ensures WellKeyed(states[i])
  {
    if i > 0 {
      RunKeepsKeys(states, actions, i - 1);
      NextKeepsKeys(states[i - 1], actions[i - 1], states[i]);
    }
  }

  lemma {:induction false} SegmentKeepsInv(states: seq<Sys>, actions: seq<Action>, i: nat)
    requires Segment(states, actions) && i < |states| && Inv(states[0])
    ensures Inv(states[i])
  {
    if i > 0 {
      SegmentKeepsInv(states, actions, i - 1);
      NextKeepsInv(states[i - 1], actions[i - 1], states[i]);
    }
  }

  lemma ReachesKeepsInv(s: Sys, s': Sys)
    requires Reaches(s, s') && Inv(s)
    ensures Inv(s')
  {
    var states, actions :| Leads(states, actions, s, s');
    SegmentKeepsInv(states, actions, |states| - 1);
  }

  /** Member `n` owns every partition, stands at its committed offset and has nothing in progress. */
  ghost predicate InCharge(s: Sys, n: NodeId) {
    && n in s.nodes && s.nodes[n].hand.None? && s.nodes[n].queue == [] && s.nodes[n].work.Idle? && s.nodes[n].task.None?
    && s.nodes[n].positions == s.committed && s.committed.Keys == s.log.Keys
    && (forall p :: p in s.log ==> BrokerOwner(s, p, n) && s.committed[p] <= |s.log[p]|)
    && WellKeyed(s)
  }

  function NextOf(node: Node, p: Partition): Fetched
    requires p in node.positions
  {
    Fetched(p, node.positions[p], node.epoch, node.epoch, node.since)
  }

  function Taking(node: Node, p: Partition): Node
    requires p in node.positions
  {
    node.(positions := node.positions[p := node.positions[p] + 1], work := Working(NextOf(node, p), Fresh))
  }

  function Receiving(node: Node, p: Partition): Node
    requires p in node.positions
  {
    node.(positions := node.positions[p := node.positions[p] + 1], hand := Some(NextOf(node, p)))
  }

  lemma NextRecordIsStamped(s: Sys, n: NodeId, p: Partition)
    requires InCharge(s, n) && p in s.log && s.committed[p] < |s.log[p]|
    ensures Reaches(s, With(s, n, Receiving(s.nodes[n], p).(hand := None, queue := [NextOf(s.nodes[n], p)])))
  {
    var f, held := NextOf(s.nodes[n], p), Receiving(s.nodes[n], p);
    var queued := held.(hand := None, queue := [f]);
    ReachesOne(s, Group(n, Receive(p)), With(s, n, held));
    WithTwice(s, n, held, queued);
    assert held.queue + [f] == [f];
    ReachesThen(s, With(s, n, held), Group(n, Stamp), With(s, n, queued));
  }

  /** The next record of a partition is received, stamped with the current epoch and taken up. */
  lemma NextRecordIsTaken(s: Sys, n: NodeId, p: Partition)
    requires InCharge(s, n) && p in s.log && s.committed[p] < |s.log[p]|
    ensures var s' := With(s, n, Taking(s.nodes[n], p)); Reaches(s, s') && Serving(s', n, NextOf(s.nodes[n], p), Fresh)
  {
    var f, taking := NextOf(s.nodes[n], p), Taking(s.nodes[n], p);
    var queued := Receiving(s.nodes[n], p).(hand := None, queue := [f]);
    NextRecordIsStamped(s, n, p);
    WithTwice(s, n, queued, taking);
    assert queued.queue[1..] == [];
    ReachesThen(s, With(s, n, queued), Group(n, Take), With(s, n, taking));
  }

  /** The record is committed, and the log and the other partitions are as they were. */
  ghost predicate OneMoreCommitted(s: Sys, s': Sys, n: NodeId, p: Partition) {
    && p in s.committed && s'.log == s.log && s'.committed == s.committed[p := s.committed[p] + 1] && InCharge(s', n)
  }

  lemma DoneIsInCharge(s: Sys, served: Sys, n: NodeId, p: Partition, s': Sys)
    requires InCharge(s, n) && p in s.log && s.committed[p] < |s.log[p]|
    requires served.log == s.log && served.committed == s.committed && served.owner == s.owner
    requires n in served.nodes && served.nodes[n] == Taking(s.nodes[n], p)
    requires s' == Done(served, n, NextOf(s.nodes[n], p)).(execs := s'.execs) && WellKeyed(s')
    ensures OneMoreCommitted(s, s', n, p)
  {
  }

  lemma ServedIsKeyed(s: Sys, s': Sys, n: NodeId, f: Fetched, outcome: E.Outcome, to: Partition)
    requires WellKeyed(s) && HeadExists(s, f) && s.log[f.partition][f.offset].Decoded? && to in s.log && n in s.nodes
    requires Served(s, s', n, f, outcome, to)
    ensures WellKeyed(s')
  {
    forall d | d in s'.execs ensures E.SameIdentity(s'.execs[d], d) {
    }
  }

  lemma NextJobIsFinished(s: Sys, n: NodeId, p: Partition, token: Token) returns (s': Sys)
    requires InCharge(s, n) && p in s.log && s.committed[p] < |s.log[p]| && s.log[p][s.committed[p]].Decoded?
    ensures Reaches(s, s') && OneMoreCommitted(s, s', n, p)
  {
    var s1, f := With(s, n, Taking(s.nodes[n], p)), NextOf(s.nodes[n], p);
    NextRecordIsTaken(s, n, p);
    var c, t := ClaimOf(JobAt(s1, f)), E.Timings(1, 1, 1);
    if c in s1.execs && s1.execs[c].state.Terminal? {
      FinishedJobIsOnlyCommitted(s1, n, f, token, s1.execs[c].state.outcome, 0, t);
      s' := Done(s1, n, f);
      DoneIsInCharge(s, s1, n, p, s');
    } else {
      var now := if c in s1.execs then s1.execs[c].state.leaseUntil else 0;
      s' := JobIsServed(s1, n, f, token, E.ResultPublished, now, t, p);
      ServedIsKeyed(s1, s', n, f, E.ResultPublished, p);
      DoneIsInCharge(s, Publish(s1, JobAt(s1, f), E.ResultPublished, p), n, p, s');
    }
    ReachesThrough(s, s1, s');
  }

  lemma NextRecordIsFinished(s: Sys, n: NodeId, p: Partition, token: Token) returns (s': Sys)
    requires InCharge(s, n) && p in s.log && s.committed[p] < |s.log[p]|
    ensures Reaches(s, s') && OneMoreCommitted(s, s', n, p)
  {
    if s.log[p][s.committed[p]].Decoded? {
      s' := NextJobIsFinished(s, n, p, token);
    } else {
      var s1, f := With(s, n, Taking(s.nodes[n], p)), NextOf(s.nodes[n], p);
      NextRecordIsTaken(s, n, p);
      UnrunnableRecordIsCommitted(s1, n, f);
      var kept := s1.(poison := s1.poison + {(p, f.offset)});
      s' := Done(kept, n, f);
      DoneIsInCharge(s, kept, n, p, s');
      ReachesThrough(s, s1, s');
    }
  }

  lemma ReachesSelf(s: Sys)
    ensures Reaches(s, s)
  {
    assert Leads([s], [], s, s);
  }

  lemma {:induction false} PartitionIsDrained(s: Sys, n: NodeId, p: Partition, token: Token) returns (s': Sys)
    requires InCharge(s, n) && p in s.log
    ensures Reaches(s, s') && InCharge(s', n) && s'.log == s.log && s'.committed == s.committed[p := |s.log[p]|]
    decreases |s.log[p]| - s.committed[p]
  {
    if s.committed[p] == |s.log[p]| {
      s' := s;
      ReachesSelf(s);
      assert s.committed[p := |s.log[p]|] == s.committed;
    } else {
      var s1 := NextRecordIsFinished(s, n, p, token);
      s' := PartitionIsDrained(s1, n, p, token);
      ReachesThrough(s, s1, s');
      assert s1.committed[p := |s.log[p]|] == s.committed[p := |s.log[p]|];
    }
  }

  lemma {:induction false} PartitionsAreDrained(s: Sys, n: NodeId, left: set<Partition>, token: Token) returns (s': Sys)
    requires InCharge(s, n) && forall p :: p in s.log && p !in left ==> s.committed[p] == |s.log[p]|
    ensures Reaches(s, s') && InCharge(s', n) && s'.log == s.log && AllCommitted(s')
    decreases |left|
  {
    if p :| p in left && p in s.log {
      var s1 := PartitionIsDrained(s, n, p, token);
      s' := PartitionsAreDrained(s1, n, left - {p}, token);
      ReachesThrough(s, s1, s');
    } else {
      s' := s;
      ReachesSelf(s);
    }
  }

  lemma {:induction false} NewMember(ids: set<NodeId>) returns (n: NodeId)
    ensures forall m :: m in ids ==> m < n
    decreases |ids|
  {
    if last :| last in ids {
      var n' := NewMember(ids - {last});
      n := if n' <= last then last + 1 else n';
      forall m | m in ids ensures m < n {
        assert m == last || m in ids - {last};
      }
    } else {
      n := 0;
    }
  }

  lemma CommitsStayInside(s: Sys, p: Partition)
    requires Inv(s) && p in s.log
    ensures p in s.committed && s.committed[p] <= |s.log[p]|
  {
    var end := |s.log[p]|;
    assert end < s.committed[p] ==> SettledAt(s, p, end);
  }

  /** A new member joins and is assigned every partition at its committed offset. */
  lemma NewMemberTakesCharge(s: Sys, n: NodeId) returns (s': Sys)
    requires Inv(s) && WellKeyed(s) && n !in s.nodes
    ensures Reaches(s, s') && InCharge(s', n) && s'.log == s.log
  {
    var joined := Node(0, map[], |s.commits|, None, [], Idle, None);
    var s1 := With(s, n, joined);
    ReachesOne(s, Group(n, Join), s1);
    var parts := s.committed.Keys;
    var taken := joined.(epoch := 1, positions := Resume(s.committed, parts));
    s' := With(s.(owner := Reassigned(s.owner, parts, n)), n, taken);
    WithTwice(s.(owner := Reassigned(s.owner, parts, n)), n, joined, taken);
    ReachesThen(s, s1, Group(n, Rebalance(parts)), s');
    assert taken.positions == s.committed;
    forall p | p in s.log ensures s.committed[p] <= |s.log[p]| {
      CommitsStayInside(s, p);
    }
  }

  /**
   From every state of every run a state can be reached in which the same log is committed to its end.
   Then every job in it is answered and every undecodable record has its poison record.
   */
  lemma EverythingCanStillBeSettled(states: seq<Sys>, actions: seq<Action>, i: nat, token: Token) returns (s': Sys)
    requires Run(states, actions) && i < |states|
    ensures Reaches(states[i], s') && s'.log == states[i].log && AllCommitted(s')
    ensures forall j :: InLog(s', j) ==> Answered(s', j.key, j.attempt)
    ensures forall p, o :: p in s'.log && 0 <= o < |s'.log[p]| ==> SettledAt(s', p, o)
  {
    var s := states[i];
    RunKeepsInv(states, actions, i);
    RunKeepsKeys(states, actions, i);
    var n := NewMember(s.nodes.Keys);
    assert n !in s.nodes;
    var s1 := NewMemberTakesCharge(s, n);
    s' := PartitionsAreDrained(s1, n, s1.log.Keys, token);
    ReachesThrough(s, s1, s');
    ReachesKeepsInv(s, s');
    forall j | InLog(s', j) ensures Answered(s', j.key, j.attempt) {
      CommittedJobsAreAnswered(s', j);
    }
  }
}
