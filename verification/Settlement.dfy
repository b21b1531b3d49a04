/**
 Worker settlement: a job record is claimed, run, its output published, its outcome recorded with
 an owner check, and its offset committed. Nodes crash, responses are lost, partitions are
 rebalanced and records are redelivered at any point.
 */
module Settlement {
  import opened Common
  import E = ExecutionLease

  const MAX_CONTRACT_ATTEMPT: nat := 32

  type Partition = nat
  type NodeId = nat

  datatype Job = Job(key: string, attempt: nat, maxRetries: nat)

  /** What `ScenarioJob::validate` demands of the attempt counters. */
  predicate ValidAttempts(j: Job) {
    j.attempt <= j.maxRetries <= MAX_CONTRACT_ATTEMPT
  }

  /** A record as the consumer sees it: bytes that fail decoding or validation are poison. */
  datatype Record = Poison | Decoded(job: Job)

  function ClaimOf(j: Job): E.Claim {
    E.Claim(j.key, j.attempt)
  }

  /**
   A received record. `epoch` is the rebalance epoch it is stamped with after receipt. `taken` and
   `since` are history: the epoch at receipt, and how many broker commits preceded that assignment.
   */
  datatype Fetched = Fetched(partition: Partition, offset: nat, epoch: nat, taken: nat, since: nat)

  datatype Stage =
    | Fresh
    | Rejecting                                       // permanent contract or plan failure, no lease needed
    | Leased(token: Token)
    | Chosen(token: Token, outcome: E.Outcome)        // disposition decided, publication not yet acknowledged
    | Published(token: Token, outcome: E.Outcome)     // Kafka acknowledged, Redis not yet
    | Settled                                         // terminal disposition, commit still to come
    | Committing                                      // waiting for the blocking commit task

  datatype Work = Idle | Working(head: Fetched, stage: Stage) | Stopped

  /** The steps of the blocking commit task: two checks, the broker, the same two checks again. */
  datatype Phase = Begun | EpochOk | InFlight(applied: bool) | Replied(ok: bool) | Rechecked(ok: bool) | Finished(ok: bool)

  datatype Task = Task(record: Fetched, phase: Phase)

  /** `hand` is a record taken from the client but not stamped yet; `since` is history like that of records. */
  datatype Node = Node(epoch: nat, positions: map<Partition, nat>, since: nat,
                       hand: Option<Fetched>, queue: seq<Fetched>, work: Work, task: Option<Task>)

  /** One commit the broker accepted. */
  datatype Commit = Commit(member: NodeId, partition: Partition, offset: nat)

  /**
   `log` is the jobs topic, `results`, `dead` and `poison` the acknowledged output records, `execs`
   the Redis execution records, `committed` and `owner` the consumer group's state at the broker,
   `commits` the history of accepted commits.
   */
  datatype Sys = Sys(log: map<Partition, seq<Record>>,
                     results: set<E.Claim>, dead: set<E.Claim>, poison: set<(Partition, nat)>,
                     execs: map<E.Claim, E.Record>,
                     committed: map<Partition, nat>, commits: seq<Commit>, owner: map<Partition, NodeId>,
                     nodes: map<NodeId, Node>)

  // ---- Durable dispositions ------------------------------------------------------------------

  ghost predicate InLog(s: Sys, j: Job) {
    exists p, o :: p in s.log && 0 <= o < |s.log[p]| && s.log[p][o] == Decoded(j)
  }

  /** The Kafka record that a terminal outcome stands for has been acknowledged. */
  ghost predicate Durable(s: Sys, c: E.Claim, outcome: E.Outcome) {
    match outcome
    case ResultPublished => c in s.results
    case DeadLetterPublished => c in s.dead
    case RetryPublished => exists m :: RetryInLog(s, c, m)
  }

  ghost predicate RetryInLog(s: Sys, c: E.Claim, maxRetries: nat) {
    c.attempt < maxRetries && InLog(s, Job(c.key, c.attempt + 1, maxRetries))
  }

  ghost predicate SettledAt(s: Sys, p: Partition, o: int) {
    && p in s.log && 0 <= o < |s.log[p]|
    && match s.log[p][o]
       case Poison => (p, o) in s.poison
       case Decoded(j) => exists outcome :: Durable(s, ClaimOf(j), outcome)
  }

  // ---- Steps ---------------------------------------------------------------------------------

  function Exec(s: Sys, c: E.Claim): Option<E.Record> {
    if c in s.execs then Some(s.execs[c]) else None
  }

  function WithExec(s: Sys, c: E.Claim, rec: Option<E.Record>): Sys {
    s.(execs := if rec.Some? then s.execs[c := rec.value] else s.execs - {c})
  }

  function WithWork(s: Sys, n: NodeId, work: Work): Sys
    requires n in s.nodes
  {
    s.(nodes := s.nodes[n := s.nodes[n].(work := work)])
  }

  predicate AtStage(s: Sys, n: NodeId) {
    n in s.nodes && s.nodes[n].work.Working? && HeadExists(s, s.nodes[n].work.head)
  }

  predicate HeadExists(s: Sys, f: Fetched) {
    f.partition in s.log && f.offset < |s.log[f.partition]|
  }

  function HeadRecord(s: Sys, n: NodeId): Record
    requires AtStage(s, n)
  {
    s.log[s.nodes[n].work.head.partition][s.nodes[n].work.head.offset]
  }

  /** Kafka accepts the output record of a disposition. A retry lands on partition `to` of the jobs topic. */
  function Publish(s: Sys, j: Job, outcome: E.Outcome, to: Partition): Sys
    requires to in s.log
  {
    match outcome
    case ResultPublished => s.(results := s.results + {ClaimOf(j)})
    case DeadLetterPublished => s.(dead := s.dead + {ClaimOf(j)})
    case RetryPublished => s.(log := s.log[to := s.log[to] + [Decoded(j.(attempt := j.attempt + 1))]])
  }

  /** Steps of one worker on the record at its head. */
  datatype WorkAction =
    | Claim(token: Token, now: int, t: E.Timings, delivered: bool)
    | Reject
    | PublishPoison(acked: bool)
    | PublishRejected(acked: bool)
    | Renew(now: int, t: E.Timings)
    | Decide(outcome: E.Outcome)
    | PublishOutput(to: Partition, acked: bool)
    | Complete(now: int, t: E.Timings, delivered: bool)
    | Release(now: int)

  /** Steps of a node as a member of the consumer group. */
  datatype GroupAction =
    | Join
    | Rebalance(parts: set<Partition>)
    | Receive(p: Partition)
    | Stamp
    | Take
    | StartCommit
    | FinishCommit
    | Stop

  /** Steps of a commit task and of the broker serving it. The task outlives a worker that gave up on it. */
  datatype TaskAction = CheckEpoch | CheckAssignment | BrokerApplies | BrokerAnswers(ok: bool) | RecheckEpoch | RecheckAssignment

  datatype Action =
    | Produce(p: Partition, record: Record)
    | ExpireExec(c: E.Claim)
    | Group(n: NodeId, g: GroupAction)
    | Work(n: NodeId, w: WorkAction)
    | CommitTask(n: NodeId, t: TaskAction)

  /** When a worker at `stage` of record `r` may take the step. Poison only ever gets its poison record. */
  predicate WorkEnabled(s: Sys, r: Record, stage: Stage, w: WorkAction) {
    match w
    case Claim(_, _, _, _) => r.Decoded? && stage.Fresh?
    case Reject => r.Decoded? && stage.Fresh?
    case PublishPoison(_) => r.Poison? && stage.Fresh?
    case PublishRejected(_) => r.Decoded? && stage.Rejecting?
    case Renew(_, _) => r.Decoded? && HasToken(stage)
    // Exhausted attempts go to the dead-letter topic, never to another retry.
    case Decide(outcome) =>
      r.Decoded? && stage.Leased? && (outcome.RetryPublished? ==> r.job.attempt < r.job.maxRetries)
    case PublishOutput(to, _) => r.Decoded? && stage.Chosen? && to in s.log
    case Complete(_, _, _) => r.Decoded? && stage.Published?
    case Release(_) => r.Decoded? && HasToken(stage)
  }

  /** What the step does to Kafka and Redis. */
  function WorkEffect(s: Sys, f: Fetched, r: Record, stage: Stage, w: WorkAction): Sys
    requires WorkEnabled(s, r, stage, w)
  {
    match w
    case Claim(token, now, t, _) =>
      var c := ClaimOf(r.job);
      WithExec(s, c, E.ClaimStep(Exec(s, c), c, token, now, t).0)
    case PublishPoison(_) => s.(poison := s.poison + {(f.partition, f.offset)})
    case PublishRejected(_) => s.(dead := s.dead + {ClaimOf(r.job)})
    case Renew(now, t) =>
      var c := ClaimOf(r.job);
      WithExec(s, c, E.RenewStep(Exec(s, c), c, stage.token, now, t).0)
    case PublishOutput(to, _) => Publish(s, r.job, stage.outcome, to)
    case Complete(now, t, _) =>
      var c := ClaimOf(r.job);
      WithExec(s, c, E.CompleteStep(Exec(s, c), c, stage.token, stage.outcome, now, t).0)
    case Release(now) =>
      var c := ClaimOf(r.job);
      WithExec(s, c, E.ReleaseStep(Exec(s, c), c, stage.token, now).0)
    case Reject => s
    case Decide(_) => s
  }

  /** What the worker does next; `None` is fail-stop with the offset uncommitted. */
  function NextStage(s: Sys, r: Record, stage: Stage, w: WorkAction): Option<Stage>
    requires WorkEnabled(s, r, stage, w)
  {
    match w
    case Claim(token, now, t, delivered) =>
      var reply := E.ClaimStep(Exec(s, ClaimOf(r.job)), ClaimOf(r.job), token, now, t).1;
      if !delivered || reply.ClaimInvalid? then None
      else if reply.Acquired? then Some(Leased(token))
      else if reply.AlreadyCompleted? then Some(Settled)
      else Some(stage)
    case Reject => Some(Rejecting)
    case PublishPoison(acked) => Some(if acked then Settled else stage)
    case PublishRejected(acked) => Some(if acked then Settled else stage)
    case Renew(_, _) => Some(stage)
    case Decide(outcome) => Some(Chosen(stage.token, outcome))
    case PublishOutput(_, acked) => Some(if acked then Published(stage.token, stage.outcome) else stage)
    case Complete(now, t, delivered) =>
      var reply := E.CompleteStep(Exec(s, ClaimOf(r.job)), ClaimOf(r.job), stage.token, stage.outcome, now, t).1;
      if !delivered || reply.InvalidState? then Some(stage)
      else if reply.Accepted? then Some(Settled)
      else None
    // `RetryLater`: the lease is released if it is still owned and the worker fail-stops.
    case Release(_) => None
  }

  ghost predicate WorkStep(s: Sys, n: NodeId, w: WorkAction, s': Sys) {
    && AtStage(s, n)
    && var f, stage, r := s.nodes[n].work.head, s.nodes[n].work.stage, HeadRecord(s, n);
    && WorkEnabled(s, r, stage, w)
    && var next := NextStage(s, r, stage, w);
    && s' == WorkEffect(s, f, r, stage, w)
               .(nodes := s.nodes[n := s.nodes[n].(work := if next.Some? then Working(f, next.value) else Stopped)])
  }

  /** Member `n` owns exactly `parts` from now on. */
  function Reassigned(owner: map<Partition, NodeId>, parts: set<Partition>, n: NodeId): map<Partition, NodeId> {
    map p | p in owner.Keys + parts && (p in parts || owner[p] != n) :: if p in parts then n else owner[p]
  }

  /** Consumption starts at the committed offsets. */
  function Resume(committed: map<Partition, nat>, parts: set<Partition>): map<Partition, nat>
    requires parts <= committed.Keys
  {
    map p | p in parts :: committed[p]
  }

  ghost predicate GroupStep(s: Sys, n: NodeId, g: GroupAction, s': Sys) {
    match g
    case Join =>
      && n !in s.nodes
      && s' == s.(nodes := s.nodes[n := Node(0, map[], |s.commits|, None, [], Idle, None)])
    // `pre_rebalance` bumps the epoch; consumption resumes at the committed offsets.
    case Rebalance(parts) =>
      && n in s.nodes && parts <= s.committed.Keys
      && var node := s.nodes[n];
      && s' == s.(owner := Reassigned(s.owner, parts, n),
                  nodes := s.nodes[n := node.(epoch := node.epoch + 1, since := |s.commits|,
                                              positions := Resume(s.committed, parts))])
    // The client hands over the next record of an assigned partition; the epoch is read only afterwards.
    case Receive(p) =>
      && n in s.nodes && p in s.nodes[n].positions && p in s.log && s.nodes[n].hand.None?
      && var node := s.nodes[n];
      && node.positions[p] < |s.log[p]|
      && s' == s.(nodes := s.nodes[n := node.(positions := node.positions[p := node.positions[p] + 1],
                                              hand := Some(Fetched(p, node.positions[p], node.epoch, node.epoch, node.since)))])
    case Stamp =>
      && n in s.nodes && s.nodes[n].hand.Some?
      && var node := s.nodes[n];
      && s' == s.(nodes := s.nodes[n := node.(hand := None, queue := node.queue + [node.hand.value.(epoch := node.epoch)])])
    case Take =>
      && n in s.nodes && s.nodes[n].work.Idle? && s.nodes[n].queue != []
      && var node := s.nodes[n];
      && s' == s.(nodes := s.nodes[n := node.(queue := node.queue[1..], work := Working(node.queue[0], Fresh))])
    case StartCommit =>
      && AtStage(s, n) && s.nodes[n].work.stage.Settled? && s.nodes[n].task.None?
      && var node := s.nodes[n];
      && s' == s.(nodes := s.nodes[n := node.(work := Working(node.work.head, Committing), task := Some(Task(node.work.head, Begun)))])
    // Any failure, also one noticed only after the broker accepted, stops the worker.
    case FinishCommit =>
      && AtStage(s, n) && s.nodes[n].work.stage.Committing? && s.nodes[n].task.Some? && s.nodes[n].task.value.phase.Finished?
      && var node := s.nodes[n];
      && s' == s.(nodes := s.nodes[n := node.(work := if node.task.value.phase.ok then Idle else Stopped, task := None)])
    case Stop => n in s.nodes && s' == WithWork(s, n, Stopped)
  }

  function WithPhase(s: Sys, n: NodeId, phase: Phase): Sys
    requires n in s.nodes && s.nodes[n].task.Some?
  {
    s.(nodes := s.nodes[n := s.nodes[n].(task := Some(s.nodes[n].task.value.(phase := phase)))])
  }

  /** `commit_offset`, step by step; rebalances may fall between any two of them. */
  ghost predicate TaskStep(s: Sys, n: NodeId, t: TaskAction, s': Sys) {
    && n in s.nodes && s.nodes[n].task.Some?
    && var node := s.nodes[n];
    && var f, phase := node.task.value.record, node.task.value.phase;
    match t
    case CheckEpoch => phase.Begun? && s' == WithPhase(s, n, if f.epoch == node.epoch then EpochOk else Finished(false))
    case CheckAssignment =>
      phase.EpochOk? && s' == WithPhase(s, n, if f.partition in node.positions then InFlight(false) else Finished(false))
    // The broker accepts a commit only from the owner, and may see a retried request more than once.
    case BrokerApplies =>
      && phase.InFlight? && BrokerOwner(s, f.partition, n)
      && s' == WithPhase(s.(committed := s.committed[f.partition := f.offset + 1],
                            commits := s.commits + [Commit(n, f.partition, f.offset)]), n, InFlight(true))
    case BrokerAnswers(ok) => phase.InFlight? && (ok ==> phase.applied) && s' == WithPhase(s, n, Replied(ok))
    case RecheckEpoch =>
      phase.Replied? && s' == WithPhase(s, n, if f.epoch == node.epoch then Rechecked(phase.ok) else Finished(false))
    case RecheckAssignment => phase.Rechecked? && s' == WithPhase(s, n, Finished(phase.ok && f.partition in node.positions))
  }

  ghost predicate Next(s: Sys, a: Action, s': Sys) {
    match a
    // Schedulers, replay tools and anyone else append to the topic.
    case Produce(p, record) =>
      && p in s.log && (record.Decoded? ==> ValidAttempts(record.job))
      && s' == s.(log := s.log[p := s.log[p] + [record]])
    case ExpireExec(c) => s' == WithExec(s, c, None)
    case Group(n, g) => GroupStep(s, n, g, s')
    case Work(n, w) => WorkStep(s, n, w, s')
    case CommitTask(n, t) => TaskStep(s, n, t, s')
  }

  predicate HasToken(stage: Stage) {
    stage.Leased? || stage.Chosen? || stage.Published?
  }

  /** The broker accepts a commit only from the group member that owns the partition. */
  predicate BrokerOwner(s: Sys, p: Partition, n: NodeId) {
    p in s.owner && s.owner[p] == n
  }

  predicate Init(s: Sys) {
    && (forall p :: p in s.log ==> s.log[p] == [])
    && s.committed.Keys == s.log.Keys
    && (forall p :: p in s.committed ==> s.committed[p] == 0)
    && s.results == {} && s.dead == {} && s.poison == {} && s.execs == map[] && s.commits == [] && s.owner == map[] && s.nodes == map[]
  }

  ghost predicate Run(states: seq<Sys>, actions: seq<Action>) {
    && |states| == |actions| + 1
    && Init(states[0])
    && forall i :: 0 <= i < |actions| ==> Next(states[i], actions[i], states[i + 1])
  }

  // ---- Everything durable stays durable -----------------------------------------------------

  ghost predicate Grows(s: Sys, s': Sys) {
    && s.results <= s'.results && s.dead <= s'.dead && s.poison <= s'.poison
    && s'.log.Keys == s.log.Keys
    && forall p :: p in s.log ==> s.log[p] <= s'.log[p]
  }

  lemma DurableStays(s: Sys, s': Sys, c: E.Claim, outcome: E.Outcome)
    requires Grows(s, s') && Durable(s, c, outcome)
    ensures Durable(s', c, outcome)
  {
    if outcome.RetryPublished? {
      var m :| RetryInLog(s, c, m);
      var p, o :| p in s.log && 0 <= o < |s.log[p]| && s.log[p][o] == Decoded(Job(c.key, c.attempt + 1, m));
      assert s'.log[p][o] == Decoded(Job(c.key, c.attempt + 1, m));
      assert RetryInLog(s', c, m);
    }
  }

  lemma SettledStays(s: Sys, s': Sys, p: Partition, o: int)
    requires Grows(s, s') && SettledAt(s, p, o)
    ensures SettledAt(s', p, o)
  {
    assert s'.log[p][o] == s.log[p][o];
    if s.log[p][o].Decoded? {
      var c := ClaimOf(s.log[p][o].job);
      var outcome :| Durable(s, c, outcome);
      DurableStays(s, s', c, outcome);
    }
  }

  lemma WorkEffectGrows(s: Sys, f: Fetched, r: Record, stage: Stage, w: WorkAction)
    requires WorkEnabled(s, r, stage, w)
    ensures Grows(s, WorkEffect(s, f, r, stage, w))
  {
  }

  lemma WorkGrows(s: Sys, n: NodeId, w: WorkAction, s': Sys)
    requires WorkStep(s, n, w, s')
    ensures Grows(s, s')
  {
    WorkEffectGrows(s, s.nodes[n].work.head, HeadRecord(s, n), s.nodes[n].work.stage, w);
  }

  lemma GroupGrows(s: Sys, n: NodeId, g: GroupAction, s': Sys)
    requires GroupStep(s, n, g, s')
    ensures Grows(s, s')
  {
  }

  lemma TaskGrows(s: Sys, n: NodeId, t: TaskAction, s': Sys)
    requires TaskStep(s, n, t, s')
    ensures Grows(s, s')
  {
  }

  lemma NextGrows(s: Sys, a: Action, s': Sys)
    requires Next(s, a, s')
    ensures Grows(s, s')
  {
    match a
    case Work(n, w) => WorkGrows(s, n, w, s');
    case Group(n, g) => GroupGrows(s, n, g, s');
    case CommitTask(n, t) => TaskGrows(s, n, t, s');
    case _ =>
  }

  // ---- The invariant -------------------------------------------------------------------------

  /** Everything the node received and has not finished: the head, the queue, the record in hand. */
  function Pending(node: Node): seq<Fetched> {
    (if node.work.Working? then [node.work.head] else []) + node.queue + (if node.hand.Some? then [node.hand.value] else [])
  }

  datatype Place = Place(partition: Partition, offset: nat)

  function Places(node: Node): (q: seq<Place>)
    ensures |q| == |Pending(node)|
  {
    seq(|Pending(node)|, i requires 0 <= i < |Pending(node)| => Place(Pending(node)[i].partition, Pending(node)[i].offset))
  }

  /** Offset `o` of `p` is settled, or is still ahead of position `before` of the worker's own queue. */
  ghost predicate Covered(s: Sys, q: seq<Place>, p: Partition, o: int, before: int) {
    || SettledAt(s, p, o)
    || exists k :: 0 <= k < before && k < |q| && q[k].partition == p && q[k].offset == o
  }

  ghost predicate StageInv(s: Sys, node: Node) {
    node.work.Working? && HeadExists(s, node.work.head) ==>
      var f := node.work.head;
      && (node.work.stage.Settled? || node.work.stage.Committing? ==> SettledAt(s, f.partition, f.offset))
      && (s.log[f.partition][f.offset].Decoded? && node.work.stage.Published? ==>
            Durable(s, ClaimOf(s.log[f.partition][f.offset].job), node.work.stage.outcome))
      && (s.log[f.partition][f.offset].Decoded? && node.work.stage.Chosen? && node.work.stage.outcome.RetryPublished? ==>
            s.log[f.partition][f.offset].job.attempt < s.log[f.partition][f.offset].job.maxRetries)
  }

  ghost predicate QueueInv(s: Sys, node: Node) {
    var q := Places(node);
    && (forall i :: 0 <= i < |q| ==> q[i].partition in s.log && q[i].offset < |s.log[q[i].partition]|)
    && (forall i, o :: 0 <= i < |q| && 0 <= o < q[i].offset ==> Covered(s, q, q[i].partition, o, i))
    && (forall p, o :: p in node.positions && 0 <= o < node.positions[p] ==> Covered(s, q, p, o, |q|))
  }

  /** Everything up to a record whose commit has begun is settled, whatever happens to the worker. */
  ghost predicate TaskInv(s: Sys, node: Node) {
    node.task.Some? ==>
      var f := node.task.value.record;
      f.partition in s.log && forall o :: 0 <= o <= f.offset ==> SettledAt(s, f.partition, o)
  }

  ghost predicate NodeInv(s: Sys, node: Node) {
    TaskInv(s, node) && (!node.work.Stopped? ==> StageInv(s, node) && QueueInv(s, node))
  }

  ghost predicate LogInv(s: Sys) {
    && s.committed.Keys == s.log.Keys
    && forall p, o :: p in s.log && 0 <= o < |s.log[p]| && s.log[p][o].Decoded? ==> ValidAttempts(s.log[p][o].job)
  }

  ghost predicate ExecInv(s: Sys) {
    forall c :: c in s.execs && s.execs[c].state.Terminal? ==> Durable(s, c, s.execs[c].state.outcome)
  }

  /** Every offset below the committed offset of its partition is settled. */
  ghost predicate CommittedPrefixSettled(s: Sys) {
    forall p, o :: p in s.committed && 0 <= o < s.committed[p] ==> SettledAt(s, p, o)
  }

  ghost predicate Inv(s: Sys) {
    && LogInv(s) && ExecInv(s) && CommittedPrefixSettled(s)
    && forall n :: n in s.nodes ==> NodeInv(s, s.nodes[n])
  }

  lemma CoveredStays(s: Sys, s': Sys, q: seq<Place>, p: Partition, o: int, before: int)
    requires Grows(s, s') && Covered(s, q, p, o, before)
    ensures Covered(s', q, p, o, before)
  {
    if SettledAt(s, p, o) {
      SettledStays(s, s', p, o);
    }
  }

  lemma TaskInvStays(s: Sys, s': Sys, node: Node)
    requires Grows(s, s') && TaskInv(s, node)
    ensures TaskInv(s', node)
  {
    if node.task.Some? {
      var f := node.task.value.record;
      forall o | 0 <= o <= f.offset ensures SettledAt(s', f.partition, o) {
        SettledStays(s, s', f.partition, o);
      }
    }
  }

  lemma StageInvStays(s: Sys, s': Sys, node: Node)
    requires Grows(s, s') && StageInv(s, node) && (node.work.Working? ==> HeadExists(s, node.work.head))
    ensures StageInv(s', node)
  {
    if node.work.Working? {
      var f := node.work.head;
      assert s'.log[f.partition][f.offset] == s.log[f.partition][f.offset];
      if node.work.stage.Settled? || node.work.stage.Committing? {
        SettledStays(s, s', f.partition, f.offset);
      }
      if s.log[f.partition][f.offset].Decoded? && node.work.stage.Published? {
        DurableStays(s, s', ClaimOf(s.log[f.partition][f.offset].job), node.work.stage.outcome);
      }
    }
  }

  lemma QueueInvStays(s: Sys, s': Sys, node: Node, node': Node)
    requires Grows(s, s') && QueueInv(s, node)
    requires Places(node') == Places(node)
    requires forall p :: p in node'.positions ==>
               || (p in node.positions && node'.positions[p] == node.positions[p])
               || (forall o :: 0 <= o < node'.positions[p] ==> SettledAt(s, p, o))
    ensures QueueInv(s', node')
  {
    var q := Places(node);
    forall i, o | 0 <= i < |q| && 0 <= o < q[i].offset ensures Covered(s', q, q[i].partition, o, i) {
      assert Covered(s, q, q[i].partition, o, i);
      CoveredStays(s, s', q, q[i].partition, o, i);
    }
    forall p, o | p in node'.positions && 0 <= o < node'.positions[p] ensures Covered(s', q, p, o, |q|) {
      if p in node.positions && node'.positions[p] == node.positions[p] {
        CoveredStays(s, s', q, p, o, |q|);
      } else {
        SettledStays(s, s', p, o);
      }
    }
  }

  lemma HeadIsFirst(s: Sys, node: Node)
    requires QueueInv(s, node) && node.work.Working?
    ensures Places(node)[0] == Place(node.work.head.partition, node.work.head.offset) && HeadExists(s, node.work.head)
  {
    assert Pending(node)[0] == node.work.head;
    assert Places(node)[0] == Place(node.work.head.partition, node.work.head.offset);
  }

  lemma NodeInvStays(s: Sys, s': Sys, node: Node)
    requires Grows(s, s') && NodeInv(s, node)
    ensures NodeInv(s', node)
  {
    TaskInvStays(s, s', node);
    if !node.work.Stopped? {
      QueueInvStays(s, s', node, node);
      if node.work.Working? {
        HeadIsFirst(s, node);
      }
      StageInvStays(s, s', node);
    }
  }

  lemma ReceiveKeepsQueueInv(s: Sys, n: NodeId, p: Partition, s': Sys)
    requires GroupStep(s, n, Receive(p), s') && QueueInv(s, s.nodes[n])
    ensures QueueInv(s', s'.nodes[n])
  {
    NextGrows(s, Group(n, Receive(p)), s');
    var node, node' := s.nodes[n], s'.nodes[n];
    var q, q' := Places(node), Places(node');
    var f := Place(p, node.positions[p]);
    assert Pending(node') == Pending(node) + [node'.hand.value];
    assert q' == q + [f];
    forall i, o | 0 <= i < |q'| && 0 <= o < q'[i].offset ensures Covered(s', q', q'[i].partition, o, i) {
      assert Covered(s, q, q'[i].partition, o, i);
      LongerStillCovers(s, s', q, q', q'[i].partition, o, i);
    }
    forall r, o | r in node'.positions && 0 <= o < node'.positions[r] ensures Covered(s', q', r, o, |q'|) {
      if r == p && o == node.positions[p] {
        assert q'[|q|] == f;
      } else {
        assert Covered(s, q, r, o, |q|);
        LongerStillCovers(s, s', q, q', r, o, |q|);
      }
    }
  }

  lemma LongerStillCovers(s: Sys, s': Sys, q: seq<Place>, q': seq<Place>, p: Partition, o: int, before: int)
    requires Grows(s, s') && q <= q' && Covered(s, q, p, o, before)
    ensures Covered(s', q', p, o, before) && Covered(s', q', p, o, before + 1)
  {
    CoveredStays(s, s', q, p, o, before);
    if !SettledAt(s', p, o) {
      var k :| 0 <= k < before && k < |q| && q[k].partition == p && q[k].offset == o;
      assert q'[k] == q[k];
    }
  }

  /** Dropping a settled head keeps everything behind it covered. */
  lemma DropSettledHead(s: Sys, s': Sys, node: Node, node': Node)
    requires Grows(s, s') && QueueInv(s, node) && node.work.Working?
    requires SettledAt(s, node.work.head.partition, node.work.head.offset)
    requires node'.queue == node.queue && node'.hand == node.hand && node'.work.Idle? && node'.positions == node.positions
    ensures QueueInv(s', node')
  {
    var q, q' := Places(node), Places(node');
    HeadIsFirst(s, node);
    assert Pending(node) == [node.work.head] + Pending(node');
    assert q == [q[0]] + q';
    forall p, o, i | 0 <= i <= |q'| && Covered(s, q, p, o, i + 1) ensures Covered(s', q', p, o, i) {
      if SettledAt(s, p, o) {
        SettledStays(s, s', p, o);
      } else {
        var k :| 0 <= k < i + 1 && k < |q| && q[k].partition == p && q[k].offset == o;
        assert q'[k - 1] == q[k];
      }
    }
    forall i, o | 0 <= i < |q'| && 0 <= o < q'[i].offset ensures Covered(s', q', q'[i].partition, o, i) {
      assert q'[i] == q[i + 1];
      assert Covered(s, q, q[i + 1].partition, o, i + 1);
    }
    forall i | 0 <= i < |q'| ensures q'[i].partition in s'.log && q'[i].offset < |s'.log[q'[i].partition]| {
      assert q'[i] == q[i + 1];
    }
    forall p, o | p in node'.positions && 0 <= o < node'.positions[p] ensures Covered(s', q', p, o, |q'|) {
      assert Covered(s, q, p, o, |q'| + 1);
    }
  }

  // ---- Worker steps keep it ------------------------------------------------------------------

  lemma PublishedIsDurable(s: Sys, j: Job, outcome: E.Outcome, to: Partition)
    requires to in s.log && (outcome.RetryPublished? ==> j.attempt < j.maxRetries)
    ensures Durable(Publish(s, j, outcome, to), ClaimOf(j), outcome)
  {
    if outcome.RetryPublished? {
      var s' := Publish(s, j, outcome, to);
      assert s'.log[to][|s.log[to]|] == Decoded(j.(attempt := j.attempt + 1));
      assert RetryInLog(s', ClaimOf(j), j.maxRetries);
    }
  }

  /** A worker step changes nothing but the stage of its own head. */
  lemma WorkStepFrame(s: Sys, n: NodeId, w: WorkAction, s': Sys)
    requires WorkStep(s, n, w, s')
    ensures s'.nodes.Keys == s.nodes.Keys && s'.committed == s.committed && s'.commits == s.commits && s'.owner == s.owner
    ensures forall m :: m in s.nodes && m != n ==> s'.nodes[m] == s.nodes[m]
    ensures s'.nodes[n] == s.nodes[n].(work := s'.nodes[n].work)
    ensures !s'.nodes[n].work.Stopped? ==> s'.nodes[n].work.Working? && s'.nodes[n].work.head == s.nodes[n].work.head
  {
  }

  /** A claim that finds the attempt completed, an acknowledged output and an accepted completion settle the record. */
  lemma WorkStepStageInv(s: Sys, n: NodeId, w: WorkAction, s': Sys)
    requires ExecInv(s) && WorkStep(s, n, w, s') && Grows(s, s') && StageInv(s, s.nodes[n])
    requires !s'.nodes[n].work.Stopped?
    ensures StageInv(s', s'.nodes[n])
  {
    var f, r, stage := s.nodes[n].work.head, HeadRecord(s, n), s.nodes[n].work.stage;
    assert s'.log[f.partition][f.offset] == r;
    if r.Decoded? {
      JobStageInv(s, f, r, stage, w, s');
    }
  }

  lemma JobStageInv(s: Sys, f: Fetched, r: Record, stage: Stage, w: WorkAction, s': Sys)
    requires ExecInv(s) && Grows(s, s') && r.Decoded? && WorkEnabled(s, r, stage, w)
    requires Grows(WorkEffect(s, f, r, stage, w), s')
    requires stage.Published? ==> Durable(s, ClaimOf(r.job), stage.outcome)
    requires stage.Chosen? && stage.outcome.RetryPublished? ==> r.job.attempt < r.job.maxRetries
    ensures var next := NextStage(s, r, stage, w);
            && (next.Some? && next.value.Settled? ==> exists outcome :: Durable(s', ClaimOf(r.job), outcome))
            && (next.Some? && next.value.Published? ==> Durable(s', ClaimOf(r.job), next.value.outcome))
            && (next.Some? && next.value.Chosen? && next.value.outcome.RetryPublished? ==> r.job.attempt < r.job.maxRetries)
  {
    var c := ClaimOf(r.job);
    match w
    case Claim(token, now, t, delivered) =>
      if E.ClaimStep(Exec(s, c), c, token, now, t).1.AlreadyCompleted? {
        DurableStays(s, s', c, s.execs[c].state.outcome);
      }
    case PublishRejected(_) => assert Durable(s', c, E.DeadLetterPublished);
    case PublishOutput(to, _) =>
      PublishedIsDurable(s, r.job, stage.outcome, to);
      DurableStays(Publish(s, r.job, stage.outcome, to), s', c, stage.outcome);
    case Complete(_, _, _) => DurableStays(s, s', c, stage.outcome);
    case Renew(_, _) =>
      if stage.Published? {
        DurableStays(s, s', c, stage.outcome);
      }
    case _ =>
  }

  /** Only an accepted completion makes an execution record terminal. */
  lemma TerminalOnlyByCompletion(s: Sys, n: NodeId, w: WorkAction, s': Sys, c: E.Claim)
    requires WorkStep(s, n, w, s') && c in s'.execs && s'.execs[c].state.Terminal?
    ensures || (c in s.execs && s.execs[c].state == s'.execs[c].state)
            || (w.Complete? && HeadRecord(s, n).Decoded? && c == ClaimOf(HeadRecord(s, n).job)
                && s.nodes[n].work.stage.Published? && s'.execs[c].state.outcome == s.nodes[n].work.stage.outcome)
  {
  }

  lemma WorkStepExecInv(s: Sys, n: NodeId, w: WorkAction, s': Sys)
    requires ExecInv(s) && WorkStep(s, n, w, s') && Grows(s, s') && StageInv(s, s.nodes[n])
    ensures ExecInv(s')
  {
    forall c | c in s'.execs && s'.execs[c].state.Terminal? ensures Durable(s', c, s'.execs[c].state.outcome) {
      TerminalOnlyByCompletion(s, n, w, s', c);
      DurableStays(s, s', c, s'.execs[c].state.outcome);
    }
  }

  /** A worker appends to the topic only the next attempt of its own job. */
  lemma WorkStepLogInv(s: Sys, n: NodeId, w: WorkAction, s': Sys)
    requires LogInv(s) && WorkStep(s, n, w, s') && StageInv(s, s.nodes[n])
    ensures LogInv(s')
  {
    WorkStepFrame(s, n, w, s');
    if w.PublishOutput? && s.nodes[n].work.stage.outcome.RetryPublished? {
      var j := HeadRecord(s, n).job;
      assert ValidAttempts(j);
      assert forall p :: p in s.log ==> s'.log[p] == if p == w.to then s.log[p] + [Decoded(j.(attempt := j.attempt + 1))] else s.log[p];
    } else {
      assert s'.log == s.log;
    }
  }

  lemma WorkKeepsInv(s: Sys, n: NodeId, w: WorkAction, s': Sys)
    requires Inv(s) && WorkStep(s, n, w, s') && Grows(s, s')
    ensures Inv(s')
  {
    WorkStepFrame(s, n, w, s');
    assert NodeInv(s, s.nodes[n]);
    WorkStepLogInv(s, n, w, s');
    WorkStepExecInv(s, n, w, s');
    PrefixStays(s, s');
    forall m | m in s'.nodes ensures NodeInv(s', s'.nodes[m]) {
      if m != n {
        NodeInvStays(s, s', s.nodes[m]);
      } else {
        TaskInvStays(s, s', s.nodes[n]);
        if !s'.nodes[n].work.Stopped? {
          WorkStepStageInv(s, n, w, s');
          assert Pending(s'.nodes[n]) == Pending(s.nodes[n]);
          QueueInvStays(s, s', s.nodes[n], s'.nodes[n]);
        }
      }
    }
  }

  lemma PrefixStays(s: Sys, s': Sys)
    requires Grows(s, s') && CommittedPrefixSettled(s) && s'.committed == s.committed
    ensures CommittedPrefixSettled(s')
  {
    forall p, o | p in s'.committed && 0 <= o < s'.committed[p] ensures SettledAt(s', p, o) {
      SettledStays(s, s', p, o);
    }
  }

  // ---- Group steps keep it -------------------------------------------------------------------

  lemma GroupStepFrame(s: Sys, n: NodeId, g: GroupAction, s': Sys)
    requires GroupStep(s, n, g, s')
    ensures s'.log == s.log && s'.results == s.results && s'.dead == s.dead && s'.poison == s.poison && s'.execs == s.execs
    ensures s'.committed == s.committed && s'.commits == s.commits
    ensures s'.nodes.Keys == s.nodes.Keys + {n}
    ensures forall m :: m in s.nodes && m != n ==> s'.nodes[m] == s.nodes[m]
    ensures n in s.nodes && s.nodes[n].work.Stopped? ==> s'.nodes[n].work.Stopped?
  {
  }

  lemma StampKeepsPlaces(s: Sys, n: NodeId, s': Sys)
    requires GroupStep(s, n, Stamp, s')
    ensures Places(s'.nodes[n]) == Places(s.nodes[n])
  {
    var q, q' := Pending(s.nodes[n]), Pending(s'.nodes[n]);
    var last := |q| - 1;
    assert q'[..last] == q[..last] && q'[last] == q[last].(epoch := s.nodes[n].epoch);
    forall i | 0 <= i < |q| ensures q'[i].partition == q[i].partition && q'[i].offset == q[i].offset {
      if i < last {
        assert q'[i] == q'[..last][i] && q[i] == q[..last][i];
      }
    }
  }

  lemma GroupStepNodeInv(s: Sys, n: NodeId, g: GroupAction, s': Sys)
    requires CommittedPrefixSettled(s) && GroupStep(s, n, g, s') && Grows(s, s')
    requires n in s.nodes ==> StageInv(s, s.nodes[n]) && QueueInv(s, s.nodes[n])
    requires !s'.nodes[n].work.Stopped?
    ensures StageInv(s', s'.nodes[n]) && QueueInv(s', s'.nodes[n])
  {
    if g.Join? {
      assert Pending(s'.nodes[n]) == [];
    } else {
      var node, node' := s.nodes[n], s'.nodes[n];
      if node.work.Working? {
        HeadIsFirst(s, node);
      }
      StageInvStays(s, s', node);
      match g
      case Join =>
      case Rebalance(_) =>
        assert Pending(node') == Pending(node);
        QueueInvStays(s, s', node, node');
      case Receive(p) => ReceiveKeepsQueueInv(s, n, p, s');
      case Stamp =>
        StampKeepsPlaces(s, n, s');
        QueueInvStays(s, s', node, node');
      case Take =>
        assert Pending(node') == Pending(node);
        QueueInvStays(s, s', node, node');
      case StartCommit =>
        assert Pending(node') == Pending(node);
        QueueInvStays(s, s', node, node');
      case FinishCommit => DropSettledHead(s, s', node, node');
      case Stop =>
    }
  }

  /** Nothing unsettled lies before the head, so a commit task starts with a settled prefix. */
  lemma GroupStepTaskInv(s: Sys, n: NodeId, g: GroupAction, s': Sys)
    requires GroupStep(s, n, g, s') && Grows(s, s') && (n in s.nodes ==> NodeInv(s, s.nodes[n]))
    ensures TaskInv(s', s'.nodes[n])
  {
    if g.StartCommit? {
      var node := s.nodes[n];
      var f := node.work.head;
      HeadIsFirst(s, node);
      forall o | 0 <= o <= f.offset ensures SettledAt(s', f.partition, o) {
        if o < f.offset {
          assert Covered(s, Places(node), f.partition, o, 0);
        }
        SettledStays(s, s', f.partition, o);
      }
    } else if n in s.nodes {
      TaskInvStays(s, s', s.nodes[n]);
    }
  }

  lemma ExecInvStays(s: Sys, s': Sys)
    requires ExecInv(s) && Grows(s, s') && s'.execs == s.execs
    ensures ExecInv(s')
  {
    forall c | c in s'.execs && s'.execs[c].state.Terminal? ensures Durable(s', c, s'.execs[c].state.outcome) {
      DurableStays(s, s', c, s'.execs[c].state.outcome);
    }
  }

  lemma GroupKeepsInv(s: Sys, n: NodeId, g: GroupAction, s': Sys)
    requires Inv(s) && GroupStep(s, n, g, s') && Grows(s, s')
    ensures Inv(s')
  {
    GroupStepFrame(s, n, g, s');
    assert n in s.nodes ==> NodeInv(s, s.nodes[n]);
    PrefixStays(s, s');
    ExecInvStays(s, s');
    forall m | m in s'.nodes ensures NodeInv(s', s'.nodes[m]) {
      if m != n {
        NodeInvStays(s, s', s.nodes[m]);
      } else {
        GroupStepTaskInv(s, n, g, s');
        if !s'.nodes[n].work.Stopped? {
          GroupStepNodeInv(s, n, g, s');
        }
      }
    }
  }

  // ---- Commit tasks keep it ------------------------------------------------------------------

  lemma TaskStepFrame(s: Sys, n: NodeId, t: TaskAction, s': Sys)
    requires TaskStep(s, n, t, s')
    ensures s'.log == s.log && s'.results == s.results && s'.dead == s.dead && s'.poison == s.poison && s'.execs == s.execs
    ensures s'.owner == s.owner && s'.nodes.Keys == s.nodes.Keys
    ensures forall m :: m in s.nodes && m != n ==> s'.nodes[m] == s.nodes[m]
    ensures s'.nodes[n] == s.nodes[n].(task := s'.nodes[n].task)
    ensures s'.nodes[n].task.Some? && s'.nodes[n].task.value.record == s.nodes[n].task.value.record
    ensures !t.BrokerApplies? ==> s'.committed == s.committed && s'.commits == s.commits
  {
  }

  lemma ApplyKeepsPrefix(s: Sys, n: NodeId, s': Sys)
    requires TaskStep(s, n, BrokerApplies, s') && CommittedPrefixSettled(s) && TaskInv(s, s.nodes[n])
    ensures CommittedPrefixSettled(s')
  {
    var f := s.nodes[n].task.value.record;
    forall p, o | p in s'.committed && 0 <= o < s'.committed[p] ensures SettledAt(s', p, o) {
      if p == f.partition {
        assert o <= f.offset;
        SettledStays(s, s', p, o);
      } else {
        SettledStays(s, s', p, o);
      }
    }
  }

  lemma TaskKeepsInv(s: Sys, n: NodeId, t: TaskAction, s': Sys)
    requires Inv(s) && TaskStep(s, n, t, s') && Grows(s, s')
    ensures Inv(s')
  {
    TaskStepFrame(s, n, t, s');
    assert NodeInv(s, s.nodes[n]);
    if t.BrokerApplies? {
      ApplyKeepsPrefix(s, n, s');
      assert s'.committed.Keys == s.committed.Keys;
    } else {
      PrefixStays(s, s');
    }
    ExecInvStays(s, s');
    forall m | m in s'.nodes ensures NodeInv(s', s'.nodes[m]) {
      if m != n {
        NodeInvStays(s, s', s.nodes[m]);
      } else {
        NodeInvStays(s, s', s.nodes[n]);
        assert Pending(s'.nodes[n]) == Pending(s.nodes[n]);
        assert Places(s'.nodes[n]) == Places(s.nodes[n]);
      }
    }
  }

  lemma NextKeepsInv(s: Sys, a: Action, s': Sys)
    requires Inv(s) && Next(s, a, s')
    ensures Inv(s')
  {
    NextGrows(s, a, s');
    match a
    case Work(n, w) => WorkKeepsInv(s, n, w, s');
    case Group(n, g) => GroupKeepsInv(s, n, g, s');
    case CommitTask(n, t) => TaskKeepsInv(s, n, t, s');
    case _ =>
      PrefixStays(s, s');
      forall c | c in s'.execs && s'.execs[c].state.Terminal? ensures Durable(s', c, s'.execs[c].state.outcome) {
        DurableStays(s, s', c, s'.execs[c].state.outcome);
      }
      forall m | m in s'.nodes ensures NodeInv(s', s'.nodes[m]) {
        NodeInvStays(s, s', s.nodes[m]);
      }
  }

  lemma {:induction false} RunKeepsInv(states: seq<Sys>, actions: seq<Action>, i: nat)
    requires Run(states, actions) && i < |states|
    ensures Inv(states[i])
  {
    if i > 0 {
      RunKeepsInv(states, actions, i - 1);
      NextKeepsInv(states[i - 1], actions[i - 1], states[i]);
    }
  }

  // ---- No loss -------------------------------------------------------------------------------

  /** The whole topic has been consumed: every job record is below its committed offset. */
  predicate AllCommitted(s: Sys) {
    forall p :: p in s.log ==> p in s.committed && s.committed[p] == |s.log[p]|
  }

  /** Some attempt of this job, at or after `attempt`, ended in a result or a dead letter. */
  ghost predicate Answered(s: Sys, key: string, attempt: nat) {
    exists b :: attempt <= b <= MAX_CONTRACT_ATTEMPT && (E.Claim(key, b) in s.results || E.Claim(key, b) in s.dead)
  }

  lemma {:induction false} CommittedJobsAreAnswered(s: Sys, j: Job)
    requires Inv(s) && AllCommitted(s) && InLog(s, j)
    ensures Answered(s, j.key, j.attempt)
    decreases MAX_CONTRACT_ATTEMPT - j.attempt
  {
    var p, o :| p in s.log && 0 <= o < |s.log[p]| && s.log[p][o] == Decoded(j);
    assert ValidAttempts(j) && SettledAt(s, p, o);
    var outcome :| Durable(s, ClaimOf(j), outcome);
    if outcome.RetryPublished? {
      var m :| RetryInLog(s, ClaimOf(j), m);
      var retry := Job(j.key, j.attempt + 1, m);
      var p', o' :| p' in s.log && 0 <= o' < |s.log[p']| && s.log[p'][o'] == Decoded(retry);
      assert ValidAttempts(retry);
      CommittedJobsAreAnswered(s, retry);
      var b :| j.attempt + 1 <= b <= MAX_CONTRACT_ATTEMPT && (E.Claim(j.key, b) in s.results || E.Claim(j.key, b) in s.dead);
    } else {
      assert E.Claim(j.key, j.attempt) in s.results || E.Claim(j.key, j.attempt) in s.dead;
    }
  }

  /** In every reachable state, every offset below a committed offset has a durable disposition. */
  lemma CommittedPrefixIsSettled(states: seq<Sys>, actions: seq<Action>, i: nat)
    requires Run(states, actions) && i < |states|
    ensures CommittedPrefixSettled(states[i])
  {
    RunKeepsInv(states, actions, i);
  }

  /**
   No loss: in every run, once every job record is committed, every job ever appended ended in a
   result or a dead letter, and every undecodable record has its poison record.
   */
  lemma NothingIsLost(states: seq<Sys>, actions: seq<Action>, i: nat)
    requires Run(states, actions) && i < |states| && AllCommitted(states[i])
    ensures forall j :: InLog(states[i], j) ==> Answered(states[i], j.key, j.attempt)
    ensures forall p, o :: p in states[i].log && 0 <= o < |states[i].log[p]| && states[i].log[p][o].Poison? ==>
              (p, o) in states[i].poison
  {
    RunKeepsInv(states, actions, i);
    var s := states[i];
    forall j | InLog(s, j) ensures Answered(s, j.key, j.attempt) {
      CommittedJobsAreAnswered(s, j);
    }
    forall p, o | p in s.log && 0 <= o < |s.log[p]| && s.log[p][o].Poison? ensures (p, o) in s.poison {
      assert SettledAt(s, p, o);
    }
  }
}
