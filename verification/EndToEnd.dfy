/**
 From schedule to outcome: the dispatch protocol and the worker protocol run side by side, joined by
 the jobs topic. Publishing a slice appends its first-attempt job under its deterministic key.
 */
module EndToEnd {
  import opened Common
  import D = Dispatch
  import S = Settlement
  import I = Identity

  datatype Sys = Sys(dispatch: D.Sys, work: S.Sys)

  datatype Action =
    | Schedule(d: D.Action)                       // any scheduler step but a publication
    | PublishSlice(d: D.Action, p: S.Partition)   // a publication, landing on partition `p`
    | Work(w: S.Action)                           // any step of a worker, or of another producer

  /** The execution key a slice is published under. */
  function KeyOf(scenario: string, k: D.SliceKey): string {
    var at := k.id.scheduledAt;
    I.ExecutionKey(I.Window(k.id.version, scenario, if at >= 0 then at else 0, k.id.total), k.index)
  }

  function SliceJob(scenario: string, maxRetries: nat, k: D.SliceKey): S.Job {
    S.Job(KeyOf(scenario, k), 0, maxRetries)
  }

  ghost predicate Next(scenario: string, maxRetries: nat, s: Sys, a: Action, s': Sys) {
    match a
    case Schedule(d) => !d.Publish? && D.Next(s.dispatch, d, s'.dispatch) && s'.work == s.work
    case PublishSlice(d, p) =>
      && d.Publish? && D.Next(s.dispatch, d, s'.dispatch)
      && var w := s.dispatch.nodes[d.n].window.value;
         S.Next(s.work, S.Produce(p, S.Decoded(SliceJob(scenario, maxRetries, D.SliceKey(w.id, d.slice, w.total)))), s'.work)
    case Work(w) => S.Next(s.work, w, s'.work) && s'.dispatch == s.dispatch
  }

  ghost predicate Run(scenario: string, maxRetries: nat, states: seq<Sys>, actions: seq<Action>) {
    && |states| == |actions| + 1
    && D.Init(states[0].dispatch) && S.Init(states[0].work)
    && forall i :: 0 <= i < |actions| ==> Next(scenario, maxRetries, states[i], actions[i], states[i + 1])
  }

  /** Every published slice is a job in the topic. */
  ghost predicate Linked(scenario: string, maxRetries: nat, s: Sys) {
    forall k :: k in s.dispatch.kafka ==> S.InLog(s.work, SliceJob(scenario, maxRetries, k))
  }

  ghost predicate Inv(scenario: string, maxRetries: nat, s: Sys) {
    D.Inv(s.dispatch) && S.Inv(s.work) && Linked(scenario, maxRetries, s)
  }

  lemma InLogStays(s: S.Sys, s': S.Sys, j: S.Job)
    requires S.Grows(s, s') && S.InLog(s, j)
    ensures S.InLog(s', j)
  {
    var p, o :| p in s.log && 0 <= o < |s.log[p]| && s.log[p][o] == S.Decoded(j);
    assert s'.log[p][o] == S.Decoded(j);
  }

  lemma ProducedIsInLog(s: S.Sys, p: S.Partition, j: S.Job, s': S.Sys)
    requires S.Next(s, S.Produce(p, S.Decoded(j)), s')
    ensures S.InLog(s', j)
  {
    assert s'.log[p][|s.log[p]|] == S.Decoded(j);
  }

  /** Only a publication adds slices, and only the one it publishes. */
  lemma KafkaGrowsByPublication(s: D.Sys, a: D.Action, s': D.Sys)
    requires D.Next(s, a, s')
    ensures !a.Publish? ==> s'.kafka == s.kafka
    ensures a.Publish? ==>
              && a.n in s.nodes && s.nodes[a.n].window.Some?
              && var w := s.nodes[a.n].window.value; s'.kafka == s.kafka + {D.SliceKey(w.id, a.slice, w.total)}
  {
  }

  lemma WorkKeepsLinked(scenario: string, maxRetries: nat, s: Sys, a: S.Action, s': Sys)
    requires Linked(scenario, maxRetries, s) && S.Next(s.work, a, s'.work)
    ensures forall k :: k in s.dispatch.kafka ==> S.InLog(s'.work, SliceJob(scenario, maxRetries, k))
  {
    S.NextGrows(s.work, a, s'.work);
    forall k | k in s.dispatch.kafka ensures S.InLog(s'.work, SliceJob(scenario, maxRetries, k)) {
      InLogStays(s.work, s'.work, SliceJob(scenario, maxRetries, k));
    }
  }

  lemma NextKeepsInv(scenario: string, maxRetries: nat, s: Sys, a: Action, s': Sys)
    requires Inv(scenario, maxRetries, s) && Next(scenario, maxRetries, s, a, s')
    ensures Inv(scenario, maxRetries, s')
  {
    match a
    case Schedule(d) =>
      D.NextKeepsInv(s.dispatch, d, s'.dispatch);
      KafkaGrowsByPublication(s.dispatch, d, s'.dispatch);
    case PublishSlice(d, p) =>
      var w := s.dispatch.nodes[d.n].window.value;
      var job := SliceJob(scenario, maxRetries, D.SliceKey(w.id, d.slice, w.total));
      var produce := S.Produce(p, S.Decoded(job));
      D.NextKeepsInv(s.dispatch, d, s'.dispatch);
      S.NextKeepsInv(s.work, produce, s'.work);
      KafkaGrowsByPublication(s.dispatch, d, s'.dispatch);
      WorkKeepsLinked(scenario, maxRetries, s, produce, s');
      ProducedIsInLog(s.work, p, job, s'.work);
    case Work(w) =>
      S.NextKeepsInv(s.work, w, s'.work);
      WorkKeepsLinked(scenario, maxRetries, s, w, s');
  }

  lemma {:induction false} RunKeepsInv(scenario: string, maxRetries: nat, states: seq<Sys>, actions: seq<Action>,
                                       i: nat)
    requires Run(scenario, maxRetries, states, actions) && i < |states|
    ensures Inv(scenario, maxRetries, states[i])
  {
    if i == 0 {
      D.RunKeepsInv([states[0].dispatch], [], 0);
      S.RunKeepsInv([states[0].work], [], 0);
    } else {
      RunKeepsInv(scenario, maxRetries, states, actions, i - 1);
      NextKeepsInv(scenario, maxRetries, states[i - 1], actions[i - 1], states[i]);
    }
  }

  /**
   Whatever schedulers and workers crash, repeat or lose: once the jobs topic is consumed, every
   slice of every finished window ended in a result or a dead letter under its own key.
   */
  lemma EverySliceIsAnswered(scenario: string, maxRetries: nat, states: seq<Sys>, actions: seq<Action>, i: nat,
                             k: nat, index: nat)
    requires Run(scenario, maxRetries, states, actions) && i < |states| && S.AllCommitted(states[i].work)
    requires k < |states[i].dispatch.completed| && index < states[i].dispatch.completed[k].total
    ensures var id := states[i].dispatch.completed[k];
            S.Answered(states[i].work, KeyOf(scenario, D.SliceKey(id, index, id.total)), 0)
  {
    RunKeepsInv(scenario, maxRetries, states, actions, i);
    var s := states[i];
    var id := s.dispatch.completed[k];
    assert D.FullyPublished(s.dispatch, id);
    var slice := D.SliceKey(id, index, id.total);
    assert slice in s.dispatch.kafka;
    S.CommittedJobsAreAnswered(s.work, SliceJob(scenario, maxRetries, slice));
  }

  /** And the keys are its own: different slices of different windows never share one. */
  lemma SliceKeysAreDistinct(scenario: string, k: D.SliceKey, k': D.SliceKey)
    requires k.total == k.id.total && k'.total == k'.id.total && k.id.scheduledAt >= 0 && k'.id.scheduledAt >= 0
    requires KeyOf(scenario, k) == KeyOf(scenario, k')
    ensures k == k'
  {
    I.ExecutionKeysAreInjective(I.Window(k.id.version, scenario, k.id.scheduledAt, k.id.total), k.index,
                                I.Window(k'.id.version, scenario, k'.id.scheduledAt, k'.id.total), k'.index);
  }
}
