/**
 Committed offsets regress exactly when the broker applies an overtaken commit, and both windows in
 which a commit can be overtaken are real.
 */
module CommitRegress {
  import opened Common
  import opened Settlement
  import opened CommitOrder
  import opened CommitQueue

  // ---- The view of a node --------------------------------------------------------------------

  predicate Passed(node: Node) {
    node.task.Some? && ((node.task.value.phase.Rechecked? && node.task.value.phase.ok)
                        || (node.task.value.phase.Finished? && node.task.value.phase.ok))
  }

  function ViewOf(node: Node): View {
    View(Pending(node), |Pending(node)| - (if node.hand.Some? then 1 else 0), Passed(node),
         node.epoch, node.positions, node.since)
  }

  predicate Applied(phase: Phase) {
    match phase
    case InFlight(applied) => applied
    case Replied(ok) => ok
    case Rechecked(ok) => ok
    case Finished(ok) => ok
    case _ => false
  }

  /** A live worker waits for its task, and the task commits the worker's head. */
  predicate Waits(node: Node) {
    && (node.task.Some? <==> node.work.Working? && node.work.stage.Committing?)
    && (node.task.Some? ==> node.task.value.record == node.work.head)
  }

  ghost predicate TaskOrder(commits: seq<Commit>, n: NodeId, t: Task) {
    var f := t.record;
    && f.since <= |commits| && Base(commits, f.partition, f.since) <= f.offset
    && (forall k :: OwnEntry(commits, n, f.partition, f.since, k) ==> commits[k].offset <= f.offset)
    && (Applied(t.phase) ==> exists k :: OwnEntry(commits, n, f.partition, f.since, k) && commits[k].offset == f.offset)
  }

  ghost predicate NodeOrder(commits: seq<Commit>, n: NodeId, node: Node) {
    && (node.task.Some? ==> TaskOrder(commits, n, node.task.value))
    && (!node.work.Stopped? ==> Waits(node) && Ordered(commits, n, ViewOf(node)))
  }

  ghost predicate OrderInv(s: Sys) {
    Monotone(s.commits) && forall n :: n in s.nodes ==> NodeOrder(s.commits, n, s.nodes[n])
  }

  /** A commit that was applied lies below the committed offset. */
  lemma AppliedIsBelow(commits: seq<Commit>, n: NodeId, t: Task)
    requires Monotone(commits) && TaskOrder(commits, n, t) && Applied(t.phase)
    ensures t.record.offset < Last(commits, t.record.partition)
  {
    var f := t.record;
    var k :| OwnEntry(commits, n, f.partition, f.since, k) && commits[k].offset == f.offset;
    LastIsLargest(commits, f.partition, k);
  }

  // ---- Group steps ---------------------------------------------------------------------------

  lemma RebalanceView(s: Sys, n: NodeId, parts: set<Partition>, s': Sys)
    requires (forall p :: p in s.committed ==> s.committed[p] == Last(s.commits, p)) && GroupStep(s, n, Rebalance(parts), s')
    ensures ViewOf(s'.nodes[n]) == Rebalanced(ViewOf(s.nodes[n]), s.commits, parts)
    ensures s'.nodes[n].task == s.nodes[n].task && s'.nodes[n].work == s.nodes[n].work
  {
    var v', w := ViewOf(s'.nodes[n]), Rebalanced(ViewOf(s.nodes[n]), s.commits, parts);
    assert v'.q == w.q;
    assert v'.positions == w.positions;
  }

  lemma RebalanceStep(s: Sys, n: NodeId, parts: set<Partition>, s': Sys)
    requires History(s) && Monotone(s.commits) && n in s.nodes && NodeOrder(s.commits, n, s.nodes[n])
    requires GroupStep(s, n, Rebalance(parts), s')
    ensures NodeOrder(s.commits, n, s'.nodes[n])
  {
    RebalanceView(s, n, parts, s');
    RebalancedNode(s.commits, n, s.nodes[n], s'.nodes[n], parts);
  }

  lemma RebalancedNode(commits: seq<Commit>, n: NodeId, node: Node, node': Node, parts: set<Partition>)
    requires Monotone(commits) && NodeOrder(commits, n, node) && node'.task == node.task && node'.work == node.work
    requires ViewOf(node') == Rebalanced(ViewOf(node), commits, parts)
    ensures NodeOrder(commits, n, node')
  {
    if !node.work.Stopped? {
      if Passed(node) {
        AppliedIsBelow(commits, n, node.task.value);
        assert Pending(node)[0] == node.work.head;
      }
      RebalanceKeepsOrdered(commits, n, ViewOf(node), parts);
    }
  }

  lemma ReceiveView(s: Sys, n: NodeId, p: Partition, s': Sys)
    requires n in s.nodes && GroupStep(s, n, Receive(p), s')
    ensures ViewOf(s'.nodes[n]) == Received(ViewOf(s.nodes[n]), p)
    ensures s'.nodes[n].task == s.nodes[n].task && s'.nodes[n].work == s.nodes[n].work
    ensures ViewOf(s.nodes[n]).stamped == |ViewOf(s.nodes[n]).q|
  {
    assert Pending(s'.nodes[n]) == Pending(s.nodes[n]) + [s'.nodes[n].hand.value];
  }

  lemma ReceiveStep(s: Sys, n: NodeId, p: Partition, s': Sys)
    requires n in s.nodes && NodeOrder(s.commits, n, s.nodes[n]) && GroupStep(s, n, Receive(p), s')
    ensures NodeOrder(s.commits, n, s'.nodes[n])
  {
    ReceiveView(s, n, p, s');
    if !s.nodes[n].work.Stopped? {
      var v := ViewOf(s.nodes[n]);
      ReceiveContiguous(s.commits, v, p);
      ReceiveAscends(s.commits, v, p);
      ReceiveOwnBelow(s.commits, n, v, p);
    }
  }

  lemma StampStep(s: Sys, n: NodeId, s': Sys)
    requires n in s.nodes && NodeOrder(s.commits, n, s.nodes[n]) && GroupStep(s, n, Stamp, s')
    ensures NodeOrder(s.commits, n, s'.nodes[n])
  {
    var node, node' := s.nodes[n], s'.nodes[n];
    if !node.work.Stopped? {
      var v := ViewOf(node);
      StampKeepsOrdered(s.commits, n, v);
      assert Pending(node)[|Pending(node)| - 1] == node.hand.value;
      assert Pending(node') == Stamped(v).q;
      assert ViewOf(node') == Stamped(v);
    }
  }

  lemma StartStep(s: Sys, n: NodeId, s': Sys)
    requires n in s.nodes && NodeOrder(s.commits, n, s.nodes[n]) && GroupStep(s, n, StartCommit, s')
    ensures NodeOrder(s.commits, n, s'.nodes[n])
  {
    var node, node' := s.nodes[n], s'.nodes[n];
    var v := ViewOf(node);
    assert Pending(node)[0] == node.work.head && Pending(node') == Pending(node);
    assert ViewOf(node') == v;
    assert RecordReached(s.commits, v.q, 0) && OwnBelowRecord(s.commits, n, v, 0);
  }

  lemma FinishStep(s: Sys, n: NodeId, s': Sys)
    requires Monotone(s.commits) && n in s.nodes && NodeOrder(s.commits, n, s.nodes[n]) && GroupStep(s, n, FinishCommit, s')
    ensures NodeOrder(s.commits, n, s'.nodes[n])
  {
    var node, node' := s.nodes[n], s'.nodes[n];
    if node.task.value.phase.ok {
      var v := ViewOf(node);
      AppliedIsBelow(s.commits, n, node.task.value);
      assert Pending(node) == [node.work.head] + Pending(node');
      DropKeepsOrdered(s.commits, n, v);
      assert ViewOf(node') == Dropped(v);
    }
  }

  lemma OwnGroupStep(s: Sys, n: NodeId, g: GroupAction, s': Sys)
    requires History(s) && Monotone(s.commits) && (n in s.nodes ==> NodeOrder(s.commits, n, s.nodes[n])) && GroupStep(s, n, g, s')
    ensures NodeOrder(s.commits, n, s'.nodes[n])
  {
    match g
    case Join => JoinStep(s, n, s');
    case Rebalance(parts) => RebalanceStep(s, n, parts, s');
    case Receive(p) => ReceiveStep(s, n, p, s');
    case Stamp => StampStep(s, n, s');
    case Take => TakeStep(s, n, s');
    case StartCommit => StartStep(s, n, s');
    case FinishCommit => FinishStep(s, n, s');
    case Stop =>
  }

  lemma GroupKeepsOrder(s: Sys, n: NodeId, g: GroupAction, s': Sys)
    requires History(s) && OrderInv(s) && GroupStep(s, n, g, s')
    ensures OrderInv(s')
  {
    GroupStepFrame(s, n, g, s');
    OwnGroupStep(s, n, g, s');
  }

  lemma JoinStep(s: Sys, n: NodeId, s': Sys)
    requires GroupStep(s, n, Join, s')
    ensures NodeOrder(s.commits, n, s'.nodes[n])
  {
    assert Pending(s'.nodes[n]) == [];
  }

  lemma TakeStep(s: Sys, n: NodeId, s': Sys)
    requires n in s.nodes && NodeOrder(s.commits, n, s.nodes[n]) && GroupStep(s, n, Take, s')
    ensures NodeOrder(s.commits, n, s'.nodes[n])
  {
    assert Pending(s'.nodes[n]) == Pending(s.nodes[n]);
    assert ViewOf(s'.nodes[n]) == ViewOf(s.nodes[n]);
  }

  lemma WorkKeepsOrder(s: Sys, n: NodeId, w: WorkAction, s': Sys)
    requires OrderInv(s) && WorkStep(s, n, w, s')
    ensures OrderInv(s')
  {
    WorkStepFrame(s, n, w, s');
    assert NodeOrder(s.commits, n, s.nodes[n]);
    var node, node' := s.nodes[n], s'.nodes[n];
    if !node'.work.Stopped? {
      NeverCommitting(s, n, w, s');
      assert Pending(node') == Pending(node);
      assert ViewOf(node') == ViewOf(node);
    }
  }

  lemma NeverCommitting(s: Sys, n: NodeId, w: WorkAction, s': Sys)
    requires WorkStep(s, n, w, s') && !s'.nodes[n].work.Stopped?
    ensures !s.nodes[n].work.stage.Committing? && !s'.nodes[n].work.stage.Committing?
  {
  }

  // ---- Commit tasks --------------------------------------------------------------------------

  /** A task step that is not a commit changes only what the worker may still rely on. */
  /** Such a step changes only the phase of the task. */
  lemma QuietTaskNode(s: Sys, n: NodeId, t: TaskAction, s': Sys)
    requires n in s.nodes && TaskStep(s, n, t, s') && !t.BrokerApplies?
    ensures n in s'.nodes && s.nodes[n].task.Some? && s'.nodes[n].task.Some?
    ensures s'.nodes[n] == s.nodes[n].(task := Some(s.nodes[n].task.value.(phase := s'.nodes[n].task.value.phase)))
    ensures Applied(s'.nodes[n].task.value.phase) ==> Applied(s.nodes[n].task.value.phase)
  {
  }

  lemma QuietTaskView(node: Node, node': Node)
    requires node' == node.(task := node'.task)
    ensures ViewOf(node') == ViewOf(node).(passed := Passed(node')) && Pending(node') == Pending(node)
    ensures node.work.Working? ==> Pending(node) != [] && Pending(node)[0] == node.work.head
  {
  }

  lemma QuietTaskStep(s: Sys, n: NodeId, t: TaskAction, s': Sys)
    requires Monotone(s.commits) && n in s.nodes && NodeOrder(s.commits, n, s.nodes[n]) && TaskStep(s, n, t, s') && !t.BrokerApplies?
    ensures NodeOrder(s.commits, n, s'.nodes[n])
  {
    var node, node' := s.nodes[n], s'.nodes[n];
    QuietTaskNode(s, n, t, s');
    if !node.work.Stopped? {
      QuietTaskView(node, node');
      PassKeepsOrdered(s.commits, n, ViewOf(node), Passed(node'));
    }
  }

  lemma PrefixMonotone(commits: seq<Commit>, n: nat)
    requires Monotone(commits) && n <= |commits|
    ensures Monotone(commits[..n])
  {
  }

  /** Unless the commit is overtaken, nothing in the history lies beyond it. */
  lemma NothingBeyond(s: Sys, n: NodeId, k: nat)
    requires Monotone(s.commits) && n in s.nodes && s.nodes[n].task.Some? && TaskOrder(s.commits, n, s.nodes[n].task.value)
    requires !Overtaken(s, n) && k < |s.commits| && s.commits[k].partition == s.nodes[n].task.value.record.partition
    ensures s.commits[k].offset <= s.nodes[n].task.value.record.offset
  {
    var f := s.nodes[n].task.value.record;
    if k < f.since {
      PrefixMonotone(s.commits, f.since);
      assert s.commits[..f.since][k] == s.commits[k];
      LastIsLargest(s.commits[..f.since], f.partition, k);
    } else if s.commits[k].member == n {
      assert OwnEntry(s.commits, n, f.partition, f.since, k);
    } else if s.commits[k].offset > f.offset {
      assert OvertakenBy(s.commits, n, f, k);
    }
  }

  lemma TimelyCommitIsMonotone(s: Sys, n: NodeId, s': Sys)
    requires Monotone(s.commits) && n in s.nodes && NodeOrder(s.commits, n, s.nodes[n])
    requires TaskStep(s, n, BrokerApplies, s') && !Overtaken(s, n)
    ensures Monotone(s'.commits)
  {
    forall k, l | 0 <= k < l < |s'.commits| && s'.commits[k].partition == s'.commits[l].partition
      ensures s'.commits[k].offset <= s'.commits[l].offset
    {
      if l == |s.commits| {
        NothingBeyond(s, n, k);
      }
    }
  }

  lemma TaskOrderLater(commits: seq<Commit>, c: Commit, n: NodeId, t: Task)
    requires TaskOrder(commits, n, t) && (c.member == n && c.partition == t.record.partition ==> c.offset <= t.record.offset)
    ensures TaskOrder(commits + [c], n, t)
  {
    var f, more := t.record, commits + [c];
    assert more[..f.since] == commits[..f.since];
    forall k | OwnEntry(more, n, f.partition, f.since, k) ensures more[k].offset <= f.offset {
      if k < |commits| {
        assert OwnEntry(commits, n, f.partition, f.since, k);
      }
    }
    if Applied(t.phase) {
      var k :| OwnEntry(commits, n, f.partition, f.since, k) && commits[k].offset == f.offset;
      assert OwnEntry(more, n, f.partition, f.since, k);
    }
  }

  lemma CommitStepOwn(s: Sys, n: NodeId, s': Sys)
    requires n in s.nodes && NodeOrder(s.commits, n, s.nodes[n])
    requires TaskStep(s, n, BrokerApplies, s') && Monotone(s'.commits)
    ensures NodeOrder(s'.commits, n, s'.nodes[n])
  {
    var node, node' := s.nodes[n], s'.nodes[n];
    var f := node.task.value.record;
    var c := Settlement.Commit(n, f.partition, f.offset);
    TaskOrderLater(s.commits, c, n, node.task.value);
    assert OwnEntry(s'.commits, n, f.partition, f.since, |s.commits|);
    if !node.work.Stopped? {
      assert Pending(node') == Pending(node) && Pending(node)[0] == node.work.head == f;
      OwnCommitKeepsOrdered(s.commits, n, ViewOf(node));
      assert ViewOf(node') == ViewOf(node);
    }
  }

  lemma CommitStepOther(s: Sys, n: NodeId, s': Sys, m: NodeId)
    requires m in s.nodes && m != n && NodeOrder(s.commits, m, s.nodes[m])
    requires TaskStep(s, n, BrokerApplies, s') && Monotone(s'.commits)
    ensures NodeOrder(s'.commits, m, s'.nodes[m])
  {
    TaskStepFrame(s, n, BrokerApplies, s');
    var f := s.nodes[n].task.value.record;
    var c := Settlement.Commit(n, f.partition, f.offset);
    if s.nodes[m].task.Some? {
      TaskOrderLater(s.commits, c, m, s.nodes[m].task.value);
    }
    if !s.nodes[m].work.Stopped? {
      ForeignCommitKeepsOrdered(s.commits, c, m, ViewOf(s.nodes[m]));
    }
  }

  lemma TaskKeepsOrder(s: Sys, n: NodeId, t: TaskAction, s': Sys)
    requires OrderInv(s) && TaskStep(s, n, t, s') && (t.BrokerApplies? ==> !Overtaken(s, n))
    ensures OrderInv(s')
  {
    TaskStepFrame(s, n, t, s');
    assert NodeOrder(s.commits, n, s.nodes[n]);
    if t.BrokerApplies? {
      TimelyCommitIsMonotone(s, n, s');
      CommitStepOwn(s, n, s');
      forall m | m in s'.nodes && m != n ensures NodeOrder(s'.commits, m, s'.nodes[m]) {
        CommitStepOther(s, n, s', m);
      }
    } else {
      QuietTaskStep(s, n, t, s');
    }
  }

  // ---- Whole runs ----------------------------------------------------------------------------

  lemma NextKeepsOrder(s: Sys, a: Action, s': Sys)
    requires History(s) && OrderInv(s) && Next(s, a, s') && !LateCommit(s, a)
    ensures OrderInv(s')
  {
    match a
    case Work(n, w) => WorkKeepsOrder(s, n, w, s');
    case Group(n, g) => GroupKeepsOrder(s, n, g, s');
    case CommitTask(n, t) => TaskKeepsOrder(s, n, t, s');
    case _ =>
  }

  lemma {:induction false} TimelyRunKeepsOrder(states: seq<Sys>, actions: seq<Action>, i: nat)
    requires Run(states, actions) && i < |states|
    requires forall j :: 0 <= j < i ==> !LateCommit(states[j], actions[j])
    ensures OrderInv(states[i])
  {
    if i > 0 {
      TimelyRunKeepsOrder(states, actions, i - 1);
      RunKeepsHistory(states, actions, i - 1);
      NextKeepsOrder(states[i - 1], actions[i - 1], states[i]);
    }
  }

  /** Monotone histories never lower a committed offset. */
  lemma MonotoneStep(s: Sys, a: Action, s': Sys)
    requires History(s) && History(s') && Next(s, a, s') && Monotone(s'.commits)
    ensures !Regresses(s, s')
  {
    CommitsExtend(s, a, s');
    forall p | p in s.committed && p in s'.committed ensures s.committed[p] <= s'.committed[p] {
      LastGrows(s'.commits, p, |s.commits|);
    }
  }

  lemma CommitsExtend(s: Sys, a: Action, s': Sys)
    requires Next(s, a, s')
    ensures |s.commits| <= |s'.commits| && s'.commits[..|s.commits|] == s.commits && s.committed.Keys <= s'.committed.Keys
    ensures !Applies(a) ==> s'.commits == s.commits
  {
    match a
    case Work(n, w) => WorkStepFrame(s, n, w, s');
    case Group(n, g) => GroupStepFrame(s, n, g, s');
    case CommitTask(n, t) => TaskStepFrame(s, n, t, s');
    case _ =>
  }

  /** As long as no committed offset regresses, the history is monotone. */
  lemma {:induction false} SteadyRunIsMonotone(states: seq<Sys>, actions: seq<Action>, i: nat)
    requires Run(states, actions) && i < |states|
    requires forall j :: 0 <= j < i ==> !Regresses(states[j], states[j + 1])
    ensures Monotone(states[i].commits)
  {
    if i > 0 {
      SteadyRunIsMonotone(states, actions, i - 1);
      RunKeepsHistory(states, actions, i - 1);
      RunKeepsHistory(states, actions, i);
      RunKeepsInv(states, actions, i - 1);
      SteadyStep(states[i - 1], actions[i - 1], states[i]);
    }
  }

  lemma SteadyStep(s: Sys, a: Action, s': Sys)
    requires Inv(s) && History(s) && History(s') && Next(s, a, s') && Monotone(s.commits) && !Regresses(s, s')
    ensures Monotone(s'.commits)
  {
    CommitsExtend(s, a, s');
    if Applies(a) {
      var f := s.nodes[a.n].task.value.record;
      assert NodeInv(s, s.nodes[a.n]);
      forall k, l | 0 <= k < l < |s'.commits| && s'.commits[k].partition == s'.commits[l].partition
        ensures s'.commits[k].offset <= s'.commits[l].offset
      {
        if l == |s.commits| {
          LastIsLargest(s.commits, f.partition, k);
          assert f.partition in s.committed && s.committed[f.partition] <= s'.committed[f.partition];
        }
      }
    }
  }

  lemma LateCommitBreaksMonotone(s: Sys, a: Action, s': Sys)
    requires Next(s, a, s') && LateCommit(s, a)
    ensures !Monotone(s'.commits)
  {
    var f := s.nodes[a.n].task.value.record;
    var k: nat :| OvertakenBy(s.commits, a.n, f, k);
    assert s'.commits[k] == s.commits[k] && s'.commits[|s.commits|].offset == f.offset;
  }

  ghost predicate NeverRegresses(states: seq<Sys>) {
    forall i :: 0 <= i < |states| - 1 ==> !Regresses(states[i], states[i + 1])
  }

  ghost predicate NoLateCommit(states: seq<Sys>, actions: seq<Action>)
    requires |states| == |actions| + 1
  {
    forall i :: 0 <= i < |actions| ==> !LateCommit(states[i], actions[i])
  }

  /** Committed offsets never move backwards in a run if and only if the broker never applies an overtaken commit. */
  lemma OffsetsRegressExactlyByLateCommits(states: seq<Sys>, actions: seq<Action>)
    requires Run(states, actions)
    ensures NeverRegresses(states) <==> NoLateCommit(states, actions)
  {
    if NoLateCommit(states, actions) {
      forall i | 0 <= i < |states| - 1 ensures !Regresses(states[i], states[i + 1]) {
        TimelyRunKeepsOrder(states, actions, i + 1);
        RunKeepsHistory(states, actions, i);
        RunKeepsHistory(states, actions, i + 1);
        MonotoneStep(states[i], actions[i], states[i + 1]);
      }
    }
    if NeverRegresses(states) {
      forall i | 0 <= i < |actions| ensures !LateCommit(states[i], actions[i]) {
        SteadyRunIsMonotone(states, actions, i + 1);
        if LateCommit(states[i], actions[i]) {
          LateCommitBreaksMonotone(states[i], actions[i], states[i + 1]);
        }
      }
    }
  }

  /** No rebalance of the committing member falls into either window of any applied commit. */
  ghost predicate QuietWindows(states: seq<Sys>, actions: seq<Action>)
    requires |states| == |actions| + 1
  {
    forall i :: 0 <= i < |actions| && Applies(actions[i]) && actions[i].n in states[i].nodes && states[i].nodes[actions[i].n].task.Some? ==>
      var node := states[i].nodes[actions[i].n];
      node.task.value.record.taken == node.task.value.record.epoch == node.epoch
  }

  /** The fence works as far as it reaches: without a rebalance inside a window, offsets never regress. */
  lemma QuietWindowsNeverRegress(states: seq<Sys>, actions: seq<Action>)
    requires Run(states, actions) && QuietWindows(states, actions)
    ensures NeverRegresses(states)
  {
    forall i | 0 <= i < |actions| ensures !LateCommit(states[i], actions[i]) {
      if LateCommit(states[i], actions[i]) {
        LateCommitNeedsCycleInWindow(states, actions, i);
      }
    }
    OffsetsRegressExactlyByLateCommits(states, actions);
  }
}
