/** Two runs in which a committed offset moves backwards, one for each window the epoch fence leaves open. */
module CommitWitness {
  import opened Common
  import opened Settlement
  import opened CommitOrder
  import opened CommitRegress

  ghost predicate Segment(states: seq<Sys>, actions: seq<Action>) {
    && |states| == |actions| + 1
    && forall i :: 0 <= i < |actions| ==> Next(states[i], actions[i], states[i + 1])
  }

  ghost predicate Leads(states: seq<Sys>, actions: seq<Action>, s: Sys, s': Sys) {
    Segment(states, actions) && states[0] == s && states[|states| - 1] == s'
  }

  ghost predicate Reaches(s: Sys, s': Sys) {
    exists states, actions :: Leads(states, actions, s, s')
  }

  lemma ReachesOne(s: Sys, a: Action, s': Sys)
    requires Next(s, a, s')
    ensures Reaches(s, s')
  {
    assert Leads([s, s'], [a], s, s');
  }

  lemma ReachesThrough(s: Sys, mid: Sys, s': Sys)
    requires Reaches(s, mid) && Reaches(mid, s')
    ensures Reaches(s, s')
  {
    var st, ac :| Leads(st, ac, s, mid);
    var st', ac' :| Leads(st', ac', mid, s');
    var states, actions := st + st'[1..], ac + ac';
    forall i | 0 <= i < |actions| ensures Next(states[i], actions[i], states[i + 1]) {
      if i < |ac| {
        assert states[i] == st[i] && actions[i] == ac[i] && states[i + 1] == st[i + 1];
      } else {
        var j := i - |ac|;
        assert states[i] == st'[j] && actions[i] == ac'[j] && states[i + 1] == st'[j + 1];
      }
    }
    assert Leads(states, actions, s, s');
  }

  lemma ReachesThen(s: Sys, mid: Sys, a: Action, s': Sys)
    requires Reaches(s, mid) && Next(mid, a, s')
    ensures Reaches(s, s')
  {
    ReachesOne(mid, a, s');
    ReachesThrough(s, mid, s');
  }

  // ---- One member serving one undecodable record ----------------------------------------------------

  function With(s: Sys, n: NodeId, node: Node): Sys {
    s.(nodes := s.nodes[n := node])
  }

  lemma WithTwice(s: Sys, n: NodeId, a: Node, b: Node)
    ensures With(With(s, n, a), n, b) == With(s, n, b)
  {
    assert s.nodes[n := a][n := b] == s.nodes[n := b];
  }

  /** An assigned member with nothing in progress, about to read an undecodable record. */
  ghost predicate Resting(s: Sys, n: NodeId, p: Partition) {
    && n in s.nodes && p in s.log && p in s.nodes[n].positions && s.nodes[n].positions[p] < |s.log[p]|
    && s.log[p][s.nodes[n].positions[p]].Poison?
    && s.nodes[n].hand.None? && s.nodes[n].queue == [] && s.nodes[n].work.Idle? && s.nodes[n].task.None?
  }

  function Reading(node: Node, p: Partition): Node
    requires p in node.positions
  {
    node.(positions := node.positions[p := node.positions[p] + 1],
          hand := Some(Fetched(p, node.positions[p], node.epoch, node.epoch, node.since)))
  }

  lemma Read(s: Sys, n: NodeId, p: Partition)
    requires Resting(s, n, p)
    ensures Reaches(s, With(s, n, Reading(s.nodes[n], p)))
  {
    ReachesOne(s, Group(n, Receive(p)), With(s, n, Reading(s.nodes[n], p)));
  }

  /** A record in hand, nothing else in progress. */
  ghost predicate Holding(s: Sys, n: NodeId) {
    && n in s.nodes && s.nodes[n].hand.Some? && s.nodes[n].queue == [] && s.nodes[n].work.Idle? && s.nodes[n].task.None?
    && HeadExists(s, s.nodes[n].hand.value)
    && s.log[s.nodes[n].hand.value.partition][s.nodes[n].hand.value.offset].Poison?
  }

  function Headed(node: Node, stage: Stage): Node
    requires node.hand.Some?
  {
    node.(hand := None, work := Working(node.hand.value.(epoch := node.epoch), stage))
  }

  lemma StampAndTake(s: Sys, n: NodeId)
    requires Holding(s, n)
    ensures Reaches(s, With(s, n, Headed(s.nodes[n], Fresh)))
  {
    var node := s.nodes[n];
    var f := node.hand.value.(epoch := node.epoch);
    var queued := node.(hand := None, queue := [f]);
    assert node.queue + [f] == [f];
    ReachesOne(s, Group(n, Stamp), With(s, n, queued));
    WithTwice(s, n, queued, Headed(node, Fresh));
    assert queued.queue[1..] == [];
    ReachesThen(s, With(s, n, queued), Group(n, Take), With(s, n, Headed(node, Fresh)));
  }

  function Poisoned(s: Sys, f: Fetched): Sys {
    s.(poison := s.poison + {(f.partition, f.offset)})
  }

  lemma SettleHead(s: Sys, n: NodeId)
    requires Holding(s, n)
    ensures var f := s.nodes[n].hand.value; Reaches(s, With(Poisoned(s, f), n, Headed(s.nodes[n], Settled)))
  {
    var node := s.nodes[n];
    var fresh', settled := Headed(node, Fresh), Headed(node, Settled);
    StampAndTake(s, n);
    var mid := With(s, n, fresh');
    WithTwice(s, n, fresh', settled);
    assert mid.nodes[n := settled] == s.nodes[n := settled];
    ReachesThen(s, mid, Work(n, PublishPoison(true)), With(Poisoned(s, node.hand.value), n, settled));
  }

  function Sending(node: Node, phase: Phase): Node
    requires node.hand.Some?
  {
    var f := node.hand.value.(epoch := node.epoch);
    node.(hand := None, work := Working(f, Committing), task := Some(Task(f, phase)))
  }

  /** From a record in hand to its commit on the way to the broker, both checks passed. */
  lemma SendCommit(s: Sys, n: NodeId)
    requires Holding(s, n) && s.nodes[n].hand.value.partition in s.nodes[n].positions
    ensures Reaches(s, With(Poisoned(s, s.nodes[n].hand.value), n, Sending(s.nodes[n], InFlight(false))))
  {
    var node := s.nodes[n];
    var t := Poisoned(s, node.hand.value);
    var settled, begun, checked, flying :=
      Headed(node, Settled), Sending(node, Begun), Sending(node, EpochOk), Sending(node, InFlight(false));
    SettleHead(s, n);
    WithTwice(t, n, settled, begun);
    ReachesThen(s, With(t, n, settled), Group(n, StartCommit), With(t, n, begun));
    WithTwice(t, n, begun, checked);
    ReachesThen(s, With(t, n, begun), CommitTask(n, CheckEpoch), With(t, n, checked));
    WithTwice(t, n, checked, flying);
    ReachesThen(s, With(t, n, checked), CommitTask(n, CheckAssignment), With(t, n, flying));
  }

  function Landed(s: Sys, n: NodeId, f: Fetched): Sys {
    s.(committed := s.committed[f.partition := f.offset + 1], commits := s.commits + [Settlement.Commit(n, f.partition, f.offset)])
  }

  lemma ApplyAndAnswer(s: Sys, n: NodeId, node: Node)
    requires node.hand.Some? && n in s.nodes && BrokerOwner(s, node.hand.value.partition, n)
    ensures Reaches(With(s, n, Sending(node, InFlight(false))),
                    With(Landed(s, n, node.hand.value), n, Sending(node, Replied(true))))
  {
    var start, t := With(s, n, Sending(node, InFlight(false))), Landed(s, n, node.hand.value);
    WithTwice(s, n, Sending(node, InFlight(false)), Sending(node, InFlight(true)));
    ReachesOne(start, CommitTask(n, BrokerApplies), With(t, n, Sending(node, InFlight(true))));
    WithTwice(t, n, Sending(node, InFlight(true)), Sending(node, Replied(true)));
    ReachesThen(start, With(t, n, Sending(node, InFlight(true))), CommitTask(n, BrokerAnswers(true)), With(t, n, Sending(node, Replied(true))));
  }

  /** Both checks pass again and the member rests. */
  lemma RecheckAndFinish(s: Sys, n: NodeId, node: Node)
    requires node.hand.Some? && Holding(With(s, n, node), n) && node.hand.value.partition in node.positions
    ensures Reaches(With(s, n, Sending(node, Replied(true))), With(s, n, node.(hand := None)))
  {
    var start := With(s, n, Sending(node, Replied(true)));
    WithTwice(s, n, Sending(node, Replied(true)), Sending(node, Rechecked(true)));
    ReachesOne(start, CommitTask(n, RecheckEpoch), With(s, n, Sending(node, Rechecked(true))));
    WithTwice(s, n, Sending(node, Rechecked(true)), Sending(node, Finished(true)));
    ReachesThen(start, With(s, n, Sending(node, Rechecked(true))), CommitTask(n, RecheckAssignment), With(s, n, Sending(node, Finished(true))));
    WithTwice(s, n, Sending(node, Finished(true)), node.(hand := None));
    ReachesThen(start, With(s, n, Sending(node, Finished(true))), Group(n, FinishCommit), With(s, n, node.(hand := None)));
  }

  /** One record from receipt to a finished commit. */
  lemma ServeOne(s: Sys, n: NodeId, p: Partition) returns (s': Sys)
    requires Resting(s, n, p) && BrokerOwner(s, p, n)
    ensures Reaches(s, s') && s'.log == s.log && s'.owner == s.owner
    ensures s'.committed == s.committed[p := s.nodes[n].positions[p] + 1]
    ensures s'.nodes == s.nodes[n := s.nodes[n].(positions := s.nodes[n].positions[p := s.nodes[n].positions[p] + 1])]
  {
    var node := Reading(s.nodes[n], p);
    var read, f := With(s, n, node), node.hand.value;
    Read(s, n, p);
    SendCommit(read, n);
    var sent := With(Poisoned(read, f), n, Sending(node, InFlight(false)));
    ReachesThrough(s, read, sent);
    assert With(Poisoned(read, f), n, node).nodes == read.nodes;
    ApplyAndAnswer(Poisoned(read, f), n, node);
    var landed := Landed(Poisoned(read, f), n, f);
    ReachesThrough(s, sent, With(landed, n, Sending(node, Replied(true))));
    RecheckAndFinish(landed, n, node);
    s' := With(landed, n, node.(hand := None));
    ReachesThrough(s, With(landed, n, Sending(node, Replied(true))), s');
  }

  // ---- A full revoke and assign cycle ---------------------------------------------------------------

  ghost predicate TwoPoison(s: Sys) {
    0 in s.log && s.log[0] == [Poison, Poison]
  }

  ghost predicate AtRest(s: Sys, n: NodeId) {
    n in s.nodes && s.nodes[n].hand.None? && s.nodes[n].queue == [] && s.nodes[n].work.Idle? && s.nodes[n].task.None?
  }

  lemma Assign(s: Sys, n: NodeId) returns (s': Sys)
    requires n in s.nodes && 0 in s.committed
    ensures Next(s, Group(n, Rebalance({0})), s')
    ensures s'.log == s.log && s'.committed == s.committed && BrokerOwner(s', 0, n)
    ensures s'.nodes == s.nodes[n := s.nodes[n].(epoch := s.nodes[n].epoch + 1, since := |s.commits|,
                                                 positions := map[0 := s.committed[0]])]
  {
    var node := s.nodes[n];
    var positions := Resume(s.committed, {0});
    assert positions == map[0 := s.committed[0]];
    s' := s.(owner := Reassigned(s.owner, {0}, n),
             nodes := s.nodes[n := node.(epoch := node.epoch + 1, since := |s.commits|, positions := positions)]);
  }

  /** Member `m` gets the partition, commits both records, and the partition comes back to `n`. */
  lemma Cycle(s: Sys, n: NodeId, m: NodeId) returns (s': Sys)
    requires n in s.nodes && m != n && AtRest(s, m) && TwoPoison(s) && 0 in s.committed && s.committed[0] == 0
    ensures Reaches(s, s') && s'.log == s.log && BrokerOwner(s', 0, n)
    ensures 0 in s'.committed && s'.committed[0] == 2
    ensures n in s'.nodes && s'.nodes[n] == s.nodes[n].(epoch := s.nodes[n].epoch + 1, since := s'.nodes[n].since,
                                                        positions := map[0 := 2])
  {
    var given := Assign(s, m);
    ReachesOne(s, Group(m, Rebalance({0})), given);
    var one := ServeOne(given, m, 0);
    ReachesThrough(s, given, one);
    var two := ServeOne(one, m, 0);
    ReachesThrough(s, one, two);
    s' := Assign(two, n);
    ReachesThen(s, two, Group(n, Rebalance({0})), s');
  }

  function Scene(nodes: map<NodeId, Node>, records: seq<Record>): Sys {
    Sys(map[0 := records], {}, {}, {}, map[], map[0 := 0], [], map[], nodes)
  }

  /** Two undecodable records, two members, and the partition at member 0. */
  lemma Start() returns (s0: Sys, s: Sys)
    ensures Init(s0) && Reaches(s0, s)
    ensures TwoPoison(s) && Resting(s, 0, 0) && AtRest(s, 1) && 0 in s.committed && s.committed[0] == 0
    ensures s.nodes[0].positions == map[0 := 0]
  {
    var idle := Node(0, map[], 0, None, [], Idle, None);
    s0 := Scene(map[], []);
    var a, b := Scene(map[], [Poison]), Scene(map[], [Poison, Poison]);
    var c, d := Scene(map[0 := idle], [Poison, Poison]), Scene(map[0 := idle, 1 := idle], [Poison, Poison]);
    assert [] + [Poison] == [Poison] && [Poison] + [Poison] == [Poison, Poison];
    assert s0.log[0 := s0.log[0] + [Poison]] == a.log && a.log[0 := a.log[0] + [Poison]] == b.log;
    assert b.nodes[0 := idle] == c.nodes && c.nodes[1 := idle] == d.nodes;
    ReachesOne(s0, Produce(0, Poison), a);
    ReachesThen(s0, a, Produce(0, Poison), b);
    ReachesThen(s0, b, Group(0, Join), c);
    ReachesThen(s0, c, Group(1, Join), d);
    s := Assign(d, 0);
    ReachesThen(s0, d, Group(0, Rebalance({0})), s);
  }

  lemma ReachedRun(s0: Sys, s: Sys) returns (states: seq<Sys>, actions: seq<Action>)
    requires Init(s0) && Reaches(s0, s)
    ensures Run(states, actions) && states[|actions|] == s
  {
    states, actions :| Leads(states, actions, s0, s);
  }

  /** The record whose commit the broker is about to apply for member 0, and the member. */
  ghost predicate Regressing(s: Sys, s': Sys, f: Fetched, node: Node) {
    && 0 in s.nodes && s.nodes[0] == node && node.task.Some? && node.task.value.record == f
    && Next(s, CommitTask(0, BrokerApplies), s') && Regresses(s, s')
  }

  lemma LastCommit(s: Sys, f: Fetched) returns (s': Sys)
    requires 0 in s.nodes && s.nodes[0].task == Some(Task(f, InFlight(false))) && f.partition == 0 && f.offset == 0
    requires BrokerOwner(s, 0, 0) && 0 in s.committed && s.committed[0] == 2
    ensures Regressing(s, s', f, s.nodes[0])
  {
    s' := WithPhase(s.(committed := s.committed[0 := 1], commits := s.commits + [Settlement.Commit(0, 0, 0)]), 0, InFlight(true));
    assert s'.committed[0] < s.committed[0];
  }

  /** A cycle between the checks before a commit and its arrival at the broker: offset 2 falls back to 1. */
  lemma RegressAfterTheChecks() returns (states: seq<Sys>, actions: seq<Action>, s': Sys, f: Fetched, node: Node)
    ensures Run(states, actions) && Regressing(states[|actions|], s', f, node)
    ensures f.taken == f.epoch < node.epoch
  {
    var s0, s := Start();
    Read(s, 0, 0);
    var held := With(s, 0, Reading(s.nodes[0], 0));
    ReachesThrough(s0, s, held);
    SendCommit(held, 0);
    f := held.nodes[0].hand.value;
    var sent := With(Poisoned(held, f), 0, Sending(held.nodes[0], InFlight(false)));
    ReachesThrough(s0, held, sent);
    var back := Cycle(sent, 0, 1);
    ReachesThrough(s0, sent, back);
    states, actions := ReachedRun(s0, back);
    node := back.nodes[0];
    s' := LastCommit(back, f);
  }

  /** A cycle between the receipt of a record and the reading of the epoch it is stamped with. */
  lemma RegressBeforeTheStamp() returns (states: seq<Sys>, actions: seq<Action>, s': Sys, f: Fetched, node: Node)
    ensures Run(states, actions) && Regressing(states[|actions|], s', f, node)
    ensures f.taken < f.epoch == node.epoch
  {
    var s0, s := Start();
    Read(s, 0, 0);
    var held := With(s, 0, Reading(s.nodes[0], 0));
    ReachesThrough(s0, s, held);
    var back := Cycle(held, 0, 1);
    ReachesThrough(s0, held, back);
    SendCommit(back, 0);
    var sent := With(Poisoned(back, back.nodes[0].hand.value), 0, Sending(back.nodes[0], InFlight(false)));
    ReachesThrough(s0, back, sent);
    states, actions := ReachedRun(s0, sent);
    node := sent.nodes[0];
    f := node.task.value.record;
    s' := LastCommit(sent, f);
  }
}
