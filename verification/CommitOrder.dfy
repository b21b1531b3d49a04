/**
 When committed offsets move backwards. The epoch fence is checked some time before the broker
 applies a commit, and a record is stamped some time after it was received, so a commit can land
 after another member committed further. That is exactly when an offset regresses.
 */
module CommitOrder {
  import opened Common
  import opened Settlement

  // ---- The broker's commit history -------------------------------------------------------------

  /** The committed offset of `p` that a history of accepted commits leaves. */
  function Last(commits: seq<Commit>, p: Partition): nat {
    if commits == [] then 0
    else if commits[|commits| - 1].partition == p then commits[|commits| - 1].offset + 1
    else Last(commits[..|commits| - 1], p)
  }

  ghost predicate Monotone(commits: seq<Commit>) {
    forall k, l :: 0 <= k < l < |commits| && commits[k].partition == commits[l].partition ==> commits[k].offset <= commits[l].offset
  }

  lemma {:induction false} LastIsEntry(commits: seq<Commit>, p: Partition)
    ensures Last(commits, p) > 0 ==>
              exists k :: 0 <= k < |commits| && commits[k].partition == p && commits[k].offset + 1 == Last(commits, p)
    ensures Last(commits, p) == 0 ==> forall k :: 0 <= k < |commits| ==> commits[k].partition != p
  {
    if commits != [] && commits[|commits| - 1].partition != p {
      var init := commits[..|commits| - 1];
      LastIsEntry(init, p);
      if Last(init, p) > 0 {
        var k :| 0 <= k < |init| && init[k].partition == p && init[k].offset + 1 == Last(init, p);
        assert commits[k] == init[k];
      }
    }
  }

  lemma {:induction false} LastIsLargest(commits: seq<Commit>, p: Partition, k: nat)
    requires Monotone(commits) && k < |commits| && commits[k].partition == p
    ensures commits[k].offset < Last(commits, p)
  {
    var n := |commits| - 1;
    if commits[n].partition != p {
      assert commits[..n][k] == commits[k];
      LastIsLargest(commits[..n], p, k);
    }
  }

  lemma LastGrows(commits: seq<Commit>, p: Partition, n: nat)
    requires Monotone(commits) && n <= |commits|
    ensures Last(commits[..n], p) <= Last(commits, p)
  {
    LastIsEntry(commits[..n], p);
    if Last(commits[..n], p) > 0 {
      var k :| 0 <= k < n && commits[..n][k].partition == p && commits[..n][k].offset + 1 == Last(commits[..n], p);
      assert commits[k] == commits[..n][k];
      LastIsLargest(commits, p, k);
    }
  }

  lemma LastAfter(commits: seq<Commit>, c: Commit, p: Partition)
    ensures Last(commits + [c], p) == if c.partition == p then c.offset + 1 else Last(commits, p)
  {
    assert (commits + [c])[..|commits|] == commits;
  }

  // ---- Regressions and overtaken commits ---------------------------------------------------------

  ghost predicate Regresses(s: Sys, s': Sys) {
    exists p :: p in s.committed && p in s'.committed && s'.committed[p] < s.committed[p]
  }

  predicate Applies(a: Action) {
    a.CommitTask? && a.t.BrokerApplies?
  }

  /** Since the assignment under which the record was received, another member committed beyond it. */
  ghost predicate OvertakenBy(commits: seq<Commit>, n: NodeId, f: Fetched, k: nat) {
    f.since <= k < |commits| && commits[k].partition == f.partition && commits[k].member != n && commits[k].offset > f.offset
  }

  ghost predicate Overtaken(s: Sys, n: NodeId) {
    n in s.nodes && s.nodes[n].task.Some? && exists k :: OvertakenBy(s.commits, n, s.nodes[n].task.value.record, k)
  }

  ghost predicate LateCommit(s: Sys, a: Action) {
    Applies(a) && Overtaken(s, a.n)
  }

  // ---- What holds in every run -------------------------------------------------------------------

  ghost predicate StampOk(node: Node, f: Fetched) {
    f.taken <= f.epoch <= node.epoch && f.since <= node.since && (f.taken == node.epoch ==> f.since == node.since)
  }

  ghost predicate StampsOk(node: Node) {
    && (forall f :: f in Pending(node) ==> StampOk(node, f))
    && (node.task.Some? ==> StampOk(node, node.task.value.record))
  }

  /** While a member owns a partition, every commit to it since its assignment is its own. */
  ghost predicate OwnerCommits(s: Sys, p: Partition) {
    p in s.owner ==>
      && s.owner[p] in s.nodes
      && forall k :: s.nodes[s.owner[p]].since <= k < |s.commits| && s.commits[k].partition == p ==> s.commits[k].member == s.owner[p]
  }

  ghost predicate History(s: Sys) {
    && (forall p :: p in s.committed ==> s.committed[p] == Last(s.commits, p))
    && (forall k :: 0 <= k < |s.commits| ==> s.commits[k].partition in s.committed)
    && (forall n :: n in s.nodes ==> s.nodes[n].since <= |s.commits| && StampsOk(s.nodes[n]))
    && (forall p :: OwnerCommits(s, p))
  }

  lemma GroupKeepsStamps(s: Sys, n: NodeId, g: GroupAction, s': Sys)
    requires GroupStep(s, n, g, s') && (n in s.nodes ==> StampsOk(s.nodes[n]) && s.nodes[n].since <= |s.commits|)
    ensures StampsOk(s'.nodes[n]) && s'.nodes[n].since <= |s.commits|
    ensures n in s.nodes ==> s.nodes[n].since <= s'.nodes[n].since
  {
    if n in s.nodes {
      var node, node' := s.nodes[n], s'.nodes[n];
      forall f | f in Pending(node') ensures StampOk(node', f) {
        if g.Stamp? && f == node.hand.value.(epoch := node.epoch) {
          assert node.hand.value in Pending(node);
        } else if !(g.Receive? && f == node'.hand.value) {
          assert f in Pending(node);
        }
      }
      if g.StartCommit? {
        assert node.work.head in Pending(node);
      }
    }
  }

  lemma GroupKeepsOwners(s: Sys, n: NodeId, g: GroupAction, s': Sys, p: Partition)
    requires GroupStep(s, n, g, s') && OwnerCommits(s, p) && (n in s.nodes ==> s.nodes[n].since <= s'.nodes[n].since)
    ensures OwnerCommits(s', p)
  {
    GroupStepFrame(s, n, g, s');
  }

  lemma TaskKeepsHistory(s: Sys, n: NodeId, t: TaskAction, s': Sys)
    requires History(s) && TaskStep(s, n, t, s') && s.committed.Keys == s.log.Keys
    requires s.nodes[n].task.value.record.partition in s.log
    ensures History(s')
  {
    TaskStepFrame(s, n, t, s');
    var f := s.nodes[n].task.value.record;
    assert StampsOk(s.nodes[n]) && Pending(s'.nodes[n]) == Pending(s.nodes[n]);
    forall m | m in s'.nodes ensures s'.nodes[m].since <= |s'.commits| && StampsOk(s'.nodes[m]) {
      assert StampsOk(s.nodes[m]);
    }
    if t.BrokerApplies? {
      var c := Settlement.Commit(n, f.partition, f.offset);
      forall p | p in s'.committed ensures s'.committed[p] == Last(s'.commits, p) {
        LastAfter(s.commits, c, p);
      }
      forall p ensures OwnerCommits(s', p) {
        assert OwnerCommits(s, p);
      }
    } else {
      forall p ensures OwnerCommits(s', p) {
        assert OwnerCommits(s, p);
      }
    }
  }

  lemma GroupKeepsHistory(s: Sys, n: NodeId, g: GroupAction, s': Sys)
    requires History(s) && GroupStep(s, n, g, s')
    ensures History(s')
  {
    GroupStepFrame(s, n, g, s');
    GroupKeepsStamps(s, n, g, s');
    forall p ensures OwnerCommits(s', p) {
      assert OwnerCommits(s, p);
      GroupKeepsOwners(s, n, g, s', p);
    }
  }

  lemma WorkKeepsHistory(s: Sys, n: NodeId, w: WorkAction, s': Sys)
    requires History(s) && WorkStep(s, n, w, s')
    ensures History(s')
  {
    WorkStepFrame(s, n, w, s');
    assert StampsOk(s.nodes[n]);
    forall f | f in Pending(s'.nodes[n]) ensures f in Pending(s.nodes[n]) {
    }
    forall p ensures OwnerCommits(s', p) {
      assert OwnerCommits(s, p);
    }
  }

  lemma NextKeepsHistory(s: Sys, a: Action, s': Sys)
    requires Inv(s) && History(s) && Next(s, a, s')
    ensures History(s')
  {
    match a
    case Work(n, w) => WorkKeepsHistory(s, n, w, s');
    case Group(n, g) => GroupKeepsHistory(s, n, g, s');
    case CommitTask(n, t) =>
      assert NodeInv(s, s.nodes[n]);
      TaskKeepsHistory(s, n, t, s');
    case _ =>
      forall p ensures OwnerCommits(s', p) {
        assert OwnerCommits(s, p);
      }
  }

  lemma {:induction false} RunKeepsHistory(states: seq<Sys>, actions: seq<Action>, i: nat)
    requires Run(states, actions) && i < |states|
    ensures History(states[i])
  {
    if i > 0 {
      RunKeepsHistory(states, actions, i - 1);
      RunKeepsInv(states, actions, i - 1);
      NextKeepsHistory(states[i - 1], actions[i - 1], states[i]);
    }
  }

  /**
   An overtaken commit that the broker applies went through a full cycle of its member's assignment
   inside one of two windows: between receipt and stamping, or between stamping and the broker.
   */
  lemma LateCommitNeedsCycleInWindow(states: seq<Sys>, actions: seq<Action>, i: nat)
    requires Run(states, actions) && i < |actions| && LateCommit(states[i], actions[i])
    ensures var node := states[i].nodes[actions[i].n];
            var f := node.task.value.record;
            f.taken < f.epoch || f.epoch < node.epoch
  {
    RunKeepsHistory(states, actions, i);
    var s, n := states[i], actions[i].n;
    var f := s.nodes[n].task.value.record;
    assert Next(s, actions[i], states[i + 1]);
    assert StampsOk(s.nodes[n]) && OwnerCommits(s, f.partition);
    var k :| OvertakenBy(s.commits, n, f, k);
  }
}
