/**
 What Redis answers to clients over whole runs: who is granted a claim or a renewal, who is refused,
 and what the record holds afterwards.
 */
module LeaseAnswers {
  import opened Common
  import opened LeaseTiming
  import E = ExecutionLease
  import L = LeaderLease

  /** Step `n` of the run is a request of the given kind. */
  predicate Executes(actions: seq<Action>, n: nat, kind: Kind) {
    n < |actions| && actions[n].RedisExec? && actions[n].request.kind == kind
  }

  /** The record is running for `token` and its lease has not lapsed at Redis millisecond `now`. */
  predicate LiveFor(rec: Option<E.Record>, token: Token, now: int) {
    rec.Some? && rec.value.owner == token && rec.value.state.Running? && now < rec.value.state.leaseUntil
  }

  predicate Lapsed(rec: Option<E.Record>, now: int) {
    rec.Some? && rec.value.state.Running? && rec.value.state.leaseUntil <= now
  }

  /** A running record of `c` for `token`, leased and retained from Redis millisecond `now` on. */
  predicate LeasedFrom(rec: Option<E.Record>, c: E.Claim, token: Token, now: int, t: E.Timings) {
    && rec.Some? && E.SameIdentity(rec.value, c) && rec.value.owner == token
    && rec.value.state == E.Running(now + t.leaseMs) && rec.value.expireAt == now + t.runningMs
  }

  // ---- Renewals ------------------------------------------------------------------------------

  /**
   A renewal that Redis executes while its sender is before its local deadline is granted, and the
   lease then runs for a full lifetime from that instant.
   */
  lemma BelieverIsRenewed(states: seq<Sys>, actions: seq<Action>, records: seq<Option<E.Record>>,
                          c: E.Claim, t: E.Timings, cfg: Config, n: nat)
    requires E.ValidTimings(t) && ValidConfig(cfg) && ReserveCoversRounding(cfg)
    requires ExecutionRun(states, actions, records, c, t, cfg) && Executes(actions, n, RenewKind)
    requires Believes(states[n], actions[n].request.token)
    ensures actions[n].granted && LeasedFrom(records[n + 1], c, actions[n].request.token, RedisMs(states[n]), t)
    ensures records[n + 1].value.recoveries == records[n].value.recoveries
  {
    AtMostOneExecutingWorker(states, actions, records, c, t, cfg, n);
    ExecutionRecordInvHolds(states, actions, records, c, t, cfg, n);
    assert ExecutionNext(states[n], records[n], actions[n], states[n + 1], records[n + 1], c, t, cfg);
  }

  /** A renewal is granted exactly to the owner of a lease that has not lapsed; otherwise nothing changes. */
  lemma OnlyTheLiveOwnerIsRenewed(states: seq<Sys>, actions: seq<Action>, records: seq<Option<E.Record>>,
                                  c: E.Claim, t: E.Timings, cfg: Config, n: nat)
    requires E.ValidTimings(t) && ExecutionRun(states, actions, records, c, t, cfg) && Executes(actions, n, RenewKind)
    ensures actions[n].granted <==> LiveFor(records[n], actions[n].request.token, RedisMs(states[n]))
    ensures Lapsed(records[n], RedisMs(states[n])) ==> !actions[n].granted
    ensures !actions[n].granted ==> records[n + 1] == records[n]
  {
    ExecutionRecordInvHolds(states, actions, records, c, t, cfg, n);
    assert ExecutionNext(states[n], records[n], actions[n], states[n + 1], records[n + 1], c, t, cfg);
  }

  // ---- Claims --------------------------------------------------------------------------------

  /**
   A claim is granted exactly when there is no record or its lease has lapsed. The claimant then owns
   a full lease, counted as a recovery when it replaced somebody; otherwise nothing changes.
   */
  lemma ClaimNeedsAFreeOrLapsedLease(states: seq<Sys>, actions: seq<Action>, records: seq<Option<E.Record>>,
                                     c: E.Claim, t: E.Timings, cfg: Config, n: nat)
    requires E.ValidTimings(t) && ExecutionRun(states, actions, records, c, t, cfg) && Executes(actions, n, ClaimKind)
    ensures actions[n].granted <==> records[n].None? || Lapsed(records[n], RedisMs(states[n]))
    ensures actions[n].granted ==>
              && LeasedFrom(records[n + 1], c, actions[n].request.token, RedisMs(states[n]), t)
              && records[n + 1].value.recoveries == if records[n].None? then 0 else records[n].value.recoveries + 1
    ensures !actions[n].granted ==> records[n + 1] == records[n]
  {
    ExecutionRecordInvHolds(states, actions, records, c, t, cfg, n);
    assert ExecutionNext(states[n], records[n], actions[n], states[n + 1], records[n + 1], c, t, cfg);
  }

  /** While some worker is before its deadline, every other claim is turned away with the time left on its lease. */
  lemma NobodyClaimsFromABeliever(states: seq<Sys>, actions: seq<Action>, records: seq<Option<E.Record>>,
                                  c: E.Claim, t: E.Timings, cfg: Config, n: nat, w: Token, other: Token)
    requires E.ValidTimings(t) && ValidConfig(cfg) && ReserveCoversRounding(cfg)
    requires ExecutionRun(states, actions, records, c, t, cfg) && n < |states| && Believes(states[n], w)
    ensures var (rec, reply) := E.ClaimStep(records[n], c, other, RedisMs(states[n]), t);
            && rec == records[n] && reply.Busy? && reply.retryAfter > 0
            && E.ClaimStep(records[n], c, other, RedisMs(states[n]) + reply.retryAfter, t).1.Acquired?
            && !E.ClaimStep(records[n], c, other, RedisMs(states[n]) + reply.retryAfter - 1, t).1.Acquired?
  {
    AtMostOneExecutingWorker(states, actions, records, c, t, cfg, n);
    ExecutionRecordInvHolds(states, actions, records, c, t, cfg, n);
  }

  // ---- Completion and release ------------------------------------------------------------------

  /** A worker before its deadline can always record its outcome, kept for the terminal retention, or let the lease go. */
  lemma BelieverCanFinish(states: seq<Sys>, actions: seq<Action>, records: seq<Option<E.Record>>,
                          c: E.Claim, t: E.Timings, cfg: Config, n: nat, w: Token, outcome: E.Outcome)
    requires E.ValidTimings(t) && ValidConfig(cfg) && ReserveCoversRounding(cfg)
    requires ExecutionRun(states, actions, records, c, t, cfg) && n < |states| && Believes(states[n], w)
    ensures var now := RedisMs(states[n]);
            var (rec, reply) := E.CompleteStep(records[n], c, w, outcome, now, t);
            && reply == E.Accepted(now) && rec.Some? && rec.value.owner == w
            && rec.value.state == E.Terminal(outcome, now) && rec.value.expireAt == now + t.terminalMs
    ensures E.ReleaseStep(records[n], c, w, RedisMs(states[n])) == (None, E.Accepted(RedisMs(states[n])))
  {
    AtMostOneExecutingWorker(states, actions, records, c, t, cfg, n);
    ExecutionRecordInvHolds(states, actions, records, c, t, cfg, n);
  }

  /** Once a lease has lapsed, neither its owner nor anyone else completes or releases it. */
  lemma LapsedLeaseIsNotFinished(states: seq<Sys>, actions: seq<Action>, records: seq<Option<E.Record>>,
                                 c: E.Claim, t: E.Timings, cfg: Config, n: nat, w: Token, outcome: E.Outcome)
    requires E.ValidTimings(t) && ExecutionRun(states, actions, records, c, t, cfg) && n < |states|
    requires Lapsed(records[n], RedisMs(states[n]))
    ensures E.CompleteStep(records[n], c, w, outcome, RedisMs(states[n]), t) == (records[n], E.StaleOwner)
    ensures E.ReleaseStep(records[n], c, w, RedisMs(states[n])) == (records[n], E.StaleOwner)
  {
    ExecutionRecordInvHolds(states, actions, records, c, t, cfg, n);
  }

  /** The close request of somebody who neither owns nor completed the record changes nothing. */
  lemma StrangersCloseNothing(states: seq<Sys>, actions: seq<Action>, records: seq<Option<E.Record>>,
                              c: E.Claim, t: E.Timings, cfg: Config, n: nat)
    requires E.ValidTimings(t) && ExecutionRun(states, actions, records, c, t, cfg) && Executes(actions, n, CloseKind)
    ensures !LiveFor(records[n], actions[n].request.token, RedisMs(states[n])) ==> records[n + 1] == records[n]
  {
    assert ExecutionNext(states[n], records[n], actions[n], states[n + 1], records[n + 1], c, t, cfg);
  }

  // ---- What callers are told -------------------------------------------------------------------

  /**
   The replies carry what the caller needs: a granted claim or renewal the end of its lease, and a
   claim also whether it replaced somebody. Without a record there is nothing to renew or complete,
   and a release finds it absent.
   */
  lemma RepliesAreExact(states: seq<Sys>, actions: seq<Action>, records: seq<Option<E.Record>>,
                        c: E.Claim, t: E.Timings, cfg: Config, n: nat, w: Token, outcome: E.Outcome)
    requires E.ValidTimings(t) && ExecutionRun(states, actions, records, c, t, cfg) && n < |states|
    ensures var rec, now := records[n], RedisMs(states[n]);
            && (rec.None? || Lapsed(rec, now) ==> E.ClaimStep(rec, c, w, now, t).1 == E.Acquired(now + t.leaseMs, rec.Some?))
            && (LiveFor(rec, w, now) ==> E.RenewStep(rec, c, w, now, t).1 == E.Accepted(now + t.leaseMs))
            && (rec.None? ==>
                  && E.RenewStep(rec, c, w, now, t) == E.CompleteStep(rec, c, w, outcome, now, t) == (rec, E.StaleOwner)
                  && E.ReleaseStep(rec, c, w, now) == (rec, E.Absent))
            && (rec.Some? && rec.value.state.Terminal? ==>
                  && E.RenewStep(rec, c, w, now, t) == E.ReleaseStep(rec, c, w, now) == (rec, E.InvalidState)
                  && E.CompleteStep(rec, c, w, outcome, now, t).0 == rec
                  && (E.CompleteStep(rec, c, w, outcome, now, t).1.Accepted? <==> rec.value.owner == w && rec.value.state.outcome == outcome))
            && (rec.Some? && rec.value.state.Running? && !LiveFor(rec, w, now) ==>
                  && E.RenewStep(rec, c, w, now, t) == E.CompleteStep(rec, c, w, outcome, now, t) == (rec, E.StaleOwner)
                  && E.ReleaseStep(rec, c, w, now) == (rec, E.StaleOwner))
  {
    ExecutionRecordInvHolds(states, actions, records, c, t, cfg, n);
  }

  /** A record stored under another execution key or attempt is refused by every script and left alone. */
  lemma ForeignRecordIsRefused(r: E.Record, c: E.Claim, w: Token, outcome: E.Outcome, now: int, t: E.Timings)
    requires r.key != c.key || r.attempt != c.attempt
    ensures E.ClaimStep(Some(r), c, w, now, t) == (Some(r), E.ClaimInvalid)
    ensures E.RenewStep(Some(r), c, w, now, t) == (Some(r), E.InvalidState)
    ensures E.CompleteStep(Some(r), c, w, outcome, now, t) == (Some(r), E.InvalidState)
    ensures E.ReleaseStep(Some(r), c, w, now) == (Some(r), E.InvalidState)
  {
  }

  // ---- Leaders -------------------------------------------------------------------------------

  /** An acquisition is granted exactly when nobody leads; the new leader has the next fence and a full lease. */
  lemma FreeElectionIsGranted(states: seq<Sys>, actions: seq<Action>, elections: seq<L.Election>, cfg: Config, n: nat)
    requires LeaderRun(states, actions, elections, cfg) && Executes(actions, n, ClaimKind)
    ensures actions[n].granted <==> elections[n].leader.None?
    ensures actions[n].granted ==>
              && elections[n + 1].fences == elections[n].fences + 1
              && elections[n + 1].leader == Some(L.Leader(actions[n].request.token, elections[n].fences + 1, RedisMs(states[n]) + LeaseMs(cfg)))
    ensures !actions[n].granted ==> elections[n + 1] == elections[n]
  {
    assert LeaderNext(states[n], elections[n], actions[n], states[n + 1], elections[n + 1], cfg);
  }

  /** A leader before its deadline renews and relinquishes with its own fence and with no other. */
  lemma BelievingLeaderRenews(states: seq<Sys>, actions: seq<Action>, elections: seq<L.Election>, cfg: Config, n: nat,
                              w: Token, fence: nat)
    requires ValidConfig(cfg) && ReserveCoversRounding(cfg)
    requires LeaderRun(states, actions, elections, cfg) && n < |states| && Believes(states[n], w)
    ensures elections[n].leader.Some?
    ensures var now, mine := RedisMs(states[n]), elections[n].leader.value.fence;
            var (e, reply) := L.RenewStep(elections[n], w, fence, now, LeaseMs(cfg));
            var (e', reply') := L.RelinquishStep(elections[n], w, fence, now);
            if fence == mine then
              && reply == L.Done(now + LeaseMs(cfg)) && e == L.Election(Some(L.Leader(w, mine, now + LeaseMs(cfg))), elections[n].fences)
              && reply'.Done? && e' == L.Election(None, elections[n].fences)
            else reply.Stale? && reply'.Stale? && e == e' == elections[n]
  {
    AtMostOneLocallyValidLeader(states, actions, elections, cfg, n);
  }

  /** A follower is told exactly how long the leader's lease still runs, and a leader when its own ends. */
  lemma FollowerWaitIsExact(states: seq<Sys>, actions: seq<Action>, elections: seq<L.Election>, cfg: Config, n: nat, w: Token)
    requires LeaderRun(states, actions, elections, cfg) && n < |states|
    ensures var e, now := elections[n], RedisMs(states[n]);
            var reply := L.AcquireStep(e, w, now, LeaseMs(cfg)).1;
            && (e.leader.Some? ==> reply.Follower? && LeaderCell(e) == Held(e.leader.value.owner, now + reply.retryAfter))
            && (e.leader.None? ==> reply == L.Acquired(e.fences + 1, now + LeaseMs(cfg)))
            && (e.leader.None? ==> L.RelinquishStep(e, w, 0, now) == (e, L.Missing))
  {
  }
}
