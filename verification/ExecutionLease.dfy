/**
 The Redis execution record: one hash per (execution key, attempt), changed only by the atomic
 claim, renew, complete and release scripts and removed by Redis when its retention runs out.
 */
module ExecutionLease {
  import opened Common

  datatype Outcome = ResultPublished | RetryPublished | DeadLetterPublished

  datatype State = Running(leaseUntil: int) | Terminal(outcome: Outcome, completedAt: int)

  /** `expireAt` is the PEXPIRE instant of the whole hash, in Redis milliseconds. */
  datatype Record = Record(key: string, attempt: nat, owner: Token, state: State,
                           recoveries: nat, expireAt: int)

  datatype Claim = Claim(key: string, attempt: nat)

  datatype Timings = Timings(leaseMs: int, runningMs: int, terminalMs: int)

  /** `running_retention` is at least four lease lifetimes. */
  predicate ValidTimings(t: Timings) {
    1 <= t.leaseMs <= t.runningMs && 1 <= t.terminalMs
  }

  datatype ClaimReply =
    | Acquired(until: int, recovered: bool)
    | AlreadyCompleted(outcome: Outcome, completedAt: int)
    | Busy(retryAfter: int)
    | ClaimInvalid

  /** Replies of the owner-checked scripts; `Accepted` carries the script's timestamp. */
  datatype Reply = Accepted(at: int) | Absent | StaleOwner | InvalidState

  predicate SameIdentity(r: Record, c: Claim) {
    r.key == c.key && r.attempt == c.attempt
  }

  /** What the claim script does to a record at Redis millisecond `now`. */
  function ClaimStep(rec: Option<Record>, c: Claim, token: Token, now: int, t: Timings)
    : (Option<Record>, ClaimReply)
  {
    match rec
    case None =>
      (Some(Record(c.key, c.attempt, token, Running(now + t.leaseMs), 0, now + t.runningMs)),
       Acquired(now + t.leaseMs, false))
    case Some(r) =>
      if !SameIdentity(r, c) then (rec, ClaimInvalid)
      else
        match r.state
        case Terminal(outcome, at) => (rec, AlreadyCompleted(outcome, at))
        case Running(until) =>
          if until <= now then
            (Some(r.(owner := token, state := Running(now + t.leaseMs),
                     recoveries := r.recoveries + 1, expireAt := now + t.runningMs)),
             Acquired(now + t.leaseMs, true))
          else (rec, Busy(until - now))
  }

  function RenewStep(rec: Option<Record>, c: Claim, token: Token, now: int, t: Timings)
    : (Option<Record>, Reply)
  {
    match rec
    case None => (rec, StaleOwner)
    case Some(r) =>
      if !SameIdentity(r, c) || r.state.Terminal? then (rec, InvalidState)
      else if r.owner != token || r.state.leaseUntil <= now then (rec, StaleOwner)
      else
        (Some(r.(state := Running(now + t.leaseMs), expireAt := now + t.runningMs)),
         Accepted(now + t.leaseMs))
  }

  function CompleteStep(rec: Option<Record>, c: Claim, token: Token, outcome: Outcome, now: int, t: Timings)
    : (Option<Record>, Reply)
  {
    match rec
    case None => (rec, StaleOwner)
    case Some(r) =>
      if !SameIdentity(r, c) then (rec, InvalidState)
      else if r.owner != token then (rec, StaleOwner)
      else
        match r.state
        case Terminal(recorded, at) =>
          if recorded != outcome then (rec, InvalidState) else (rec, Accepted(at))
        case Running(until) =>
          if until <= now then (rec, StaleOwner)
          else (Some(r.(state := Terminal(outcome, now), expireAt := now + t.terminalMs)), Accepted(now))
  }

  function ReleaseStep(rec: Option<Record>, c: Claim, token: Token, now: int): (Option<Record>, Reply) {
    match rec
    case None => (rec, Absent)
    case Some(r) =>
      if !SameIdentity(r, c) || r.state.Terminal? then (rec, InvalidState)
      else if r.owner != token || r.state.leaseUntil <= now then (rec, StaleOwner)
      else (None, Accepted(now))
  }

  /** The stored hash and the four scripts as they change it in place. */
  class ExecutionRecord {
    var stored: Option<Record>

    constructor ()
      ensures stored == None
    {
      stored := None;
    }

    method Claim(c: Claim, token: Token, now: int, t: Timings) returns (reply: ClaimReply)
      modifies this
      ensures (stored, reply) == ClaimStep(old(stored), c, token, now, t)
    {
      var leaseUntil := now + t.leaseMs;
      if stored.None? {
        stored := Some(Record(c.key, c.attempt, token, Running(leaseUntil), 0, now + t.runningMs));
        return Acquired(leaseUntil, false);
      }
      var r := stored.value;
      if r.key != c.key || r.attempt != c.attempt {
        return ClaimInvalid;
      }
      if r.state.Terminal? {
        return AlreadyCompleted(r.state.outcome, r.state.completedAt);
      }
      var current := r.state.leaseUntil;
      if current <= now {
        r := r.(owner := token);
        r := r.(state := Running(leaseUntil));
        r := r.(recoveries := r.recoveries + 1);
        stored := Some(r.(expireAt := now + t.runningMs));
        return Acquired(leaseUntil, true);
      }
      return Busy(current - now);
    }

    method Renew(c: Claim, token: Token, now: int, t: Timings) returns (reply: Reply)
      modifies this
      ensures (stored, reply) == RenewStep(old(stored), c, token, now, t)
    {
      if stored.None? {
        return StaleOwner;
      }
      var r := stored.value;
      if r.key != c.key || r.attempt != c.attempt {
        return InvalidState;
      }
      if !r.state.Running? {
        return InvalidState;
      }
      if r.owner != token || r.state.leaseUntil <= now {
        return StaleOwner;
      }
      stored := Some(r.(state := Running(now + t.leaseMs), expireAt := now + t.runningMs));
      return Accepted(now + t.leaseMs);
    }

    method Complete(c: Claim, token: Token, outcome: Outcome, now: int, t: Timings) returns (reply: Reply)
      modifies this
      ensures (stored, reply) == CompleteStep(old(stored), c, token, outcome, now, t)
    {
      if stored.None? {
        return StaleOwner;
      }
      var r := stored.value;
      if r.key != c.key || r.attempt != c.attempt {
        return InvalidState;
      }
      if r.owner != token {
        return StaleOwner;
      }
      if r.state.Terminal? {
        if r.state.outcome != outcome {
          return InvalidState;
        }
        return Accepted(r.state.completedAt);
      }
      if r.state.leaseUntil <= now {
        return StaleOwner;
      }
      stored := Some(r.(state := Terminal(outcome, now), expireAt := now + t.terminalMs));
      return Accepted(now);
    }

    method Release(c: Claim, token: Token, now: int) returns (reply: Reply)
      modifies this
      ensures (stored, reply) == ReleaseStep(old(stored), c, token, now)
    {
      if stored.None? {
        return Absent;
      }
      var r := stored.value;
      if r.key != c.key || r.attempt != c.attempt || !r.state.Running? {
        return InvalidState;
      }
      if r.owner != token || r.state.leaseUntil <= now {
        return StaleOwner;
      }
      stored := None;
      return Accepted(now);
    }
  }

  // ---- Runs of script calls on one record -------------------------------------------------

  /** A script call, or the disappearance of the key once its retention has run out. */
  datatype Op =
    | DoClaim(token: Token)
    | DoRenew(token: Token)
    | DoComplete(token: Token, outcome: Outcome)
    | DoRelease(token: Token)
    | Evict

  /** A record together with every token that was ever used to claim it. */
  datatype History = History(rec: Option<Record>, used: set<Token>)

  predicate OwnedBy(rec: Option<Record>, token: Token) {
    rec.Some? && rec.value.owner == token
  }

  ghost predicate Step(h: History, op: Op, now: int, c: Claim, t: Timings, h': History) {
    match op
    case DoClaim(token) =>
      && token !in h.used
      && h' == History(ClaimStep(h.rec, c, token, now, t).0, h.used + {token})
    case DoRenew(token) => h' == h.(rec := RenewStep(h.rec, c, token, now, t).0)
    case DoComplete(token, outcome) => h' == h.(rec := CompleteStep(h.rec, c, token, outcome, now, t).0)
    case DoRelease(token) => h' == h.(rec := ReleaseStep(h.rec, c, token, now).0)
    case Evict => h' == h.(rec := None)
  }

  /** States `hs[i]` and `hs[i + 1]` are joined by `ops[i]` executed at Redis millisecond `times[i]`. */
  ghost predicate Run(hs: seq<History>, ops: seq<Op>, times: seq<int>, c: Claim, t: Timings) {
    && |hs| == |ops| + 1 == |times| + 1
    && hs[0] == History(None, {})
    && forall i :: 0 <= i < |ops| ==> Step(hs[i], ops[i], times[i], c, t, hs[i + 1])
  }

  lemma {:induction false} TokensAccumulate(hs: seq<History>, ops: seq<Op>, times: seq<int>, c: Claim, t: Timings,
                                            i: nat)
    requires Run(hs, ops, times, c, t) && i < |hs|
    ensures hs[i].rec.Some? ==> hs[i].rec.value.owner in hs[i].used
  {
    if i > 0 {
      TokensAccumulate(hs, ops, times, c, t, i - 1);
      assert Step(hs[i - 1], ops[i - 1], times[i - 1], c, t, hs[i]);
    }
  }

  lemma {:induction false} UsedGrows(hs: seq<History>, ops: seq<Op>, times: seq<int>, c: Claim, t: Timings, i: nat,
                                     j: nat)
    requires Run(hs, ops, times, c, t) && i <= j < |hs|
    ensures hs[i].used <= hs[j].used
  {
    if i < j {
      UsedGrows(hs, ops, times, c, t, i, j - 1);
      assert Step(hs[j - 1], ops[j - 1], times[j - 1], c, t, hs[j]);
    }
  }

  /** Once a used token is not the owner, it is never the owner again. */
  lemma {:induction false} LostOwnershipStaysLost(hs: seq<History>, ops: seq<Op>, times: seq<int>, c: Claim, t: Timings,
                                                  token: Token, j: nat, k: nat)
    requires Run(hs, ops, times, c, t) && j <= k < |hs|
    requires token in hs[j].used && !OwnedBy(hs[j].rec, token)
    ensures !OwnedBy(hs[k].rec, token)
  {
    if j < k {
      LostOwnershipStaysLost(hs, ops, times, c, t, token, j, k - 1);
      UsedGrows(hs, ops, times, c, t, j, k - 1);
      assert Step(hs[k - 1], ops[k - 1], times[k - 1], c, t, hs[k]);
    }
  }

  /**
   A stale worker cannot act: in every run, after a token has owned the record and lost it, none of
   its renew, complete or release calls is accepted and none of them changes the record.
   */
  lemma ReplacedOwnerNeverActs(hs: seq<History>, ops: seq<Op>, times: seq<int>, c: Claim, t: Timings,
                               token: Token, i: nat, j: nat, k: nat, outcome: Outcome, now: int)
    requires Run(hs, ops, times, c, t) && i <= j <= k < |hs|
    requires OwnedBy(hs[i].rec, token) && !OwnedBy(hs[j].rec, token)
    ensures RenewStep(hs[k].rec, c, token, now, t).0 == hs[k].rec
    ensures !RenewStep(hs[k].rec, c, token, now, t).1.Accepted?
    ensures CompleteStep(hs[k].rec, c, token, outcome, now, t).0 == hs[k].rec
    ensures !CompleteStep(hs[k].rec, c, token, outcome, now, t).1.Accepted?
    ensures ReleaseStep(hs[k].rec, c, token, now).0 == hs[k].rec
    ensures !ReleaseStep(hs[k].rec, c, token, now).1.Accepted?
  {
    TokensAccumulate(hs, ops, times, c, t, i);
    UsedGrows(hs, ops, times, c, t, i, j);
    LostOwnershipStaysLost(hs, ops, times, c, t, token, j, k);
  }

  /** A terminal record never changes while Redis retains it: the outcome is set at most once. */
  lemma {:induction false} TerminalOutcomeIsFinal(hs: seq<History>, ops: seq<Op>, times: seq<int>, c: Claim, t: Timings,
                                                  i: nat, j: nat)
    requires Run(hs, ops, times, c, t) && i <= j < |hs|
    requires hs[i].rec.Some? && hs[i].rec.value.state.Terminal?
    requires forall k :: i <= k < j ==> ops[k] != Evict
    ensures hs[j].rec == hs[i].rec
  {
    if i < j {
      TerminalOutcomeIsFinal(hs, ops, times, c, t, i, j - 1);
      assert Step(hs[j - 1], ops[j - 1], times[j - 1], c, t, hs[j]);
    }
  }

  lemma CompletionIsRepeatable(rec: Option<Record>, c: Claim, token: Token, outcome: Outcome,
                               now: int, later: int, other: Token, t: Timings)
    requires CompleteStep(rec, c, token, outcome, now, t).1.Accepted?
    ensures var (rec', reply) := CompleteStep(rec, c, token, outcome, now, t);
            && CompleteStep(rec', c, token, outcome, later, t) == (rec', reply)
            && ClaimStep(rec', c, other, later, t) == (rec', AlreadyCompleted(outcome, reply.at))
  {
  }

  /**
   A lost completion response is harmless: whatever happens after an accepted completion, while the
   record is retained repeating it is accepted with the same timestamp, and every claim is told that
   the attempt is completed with that outcome.
   */
  lemma LostCompletionIsHarmless(hs: seq<History>, ops: seq<Op>, times: seq<int>, c: Claim, t: Timings,
                                 i: nat, j: nat, now: int, other: Token)
    requires Run(hs, ops, times, c, t) && i < j < |hs| && ops[i].DoComplete?
    requires CompleteStep(hs[i].rec, c, ops[i].token, ops[i].outcome, times[i], t).1.Accepted?
    requires forall k :: i <= k < j ==> ops[k] != Evict
    ensures var at := CompleteStep(hs[i].rec, c, ops[i].token, ops[i].outcome, times[i], t).1.at;
            && CompleteStep(hs[j].rec, c, ops[i].token, ops[i].outcome, now, t) == (hs[j].rec, Accepted(at))
            && ClaimStep(hs[j].rec, c, other, now, t) == (hs[j].rec, AlreadyCompleted(ops[i].outcome, at))
  {
    assert Step(hs[i], ops[i], times[i], c, t, hs[i + 1]);
    CompletionIsRepeatable(hs[i].rec, c, ops[i].token, ops[i].outcome, times[i], now, other, t);
    TerminalOutcomeIsFinal(hs, ops, times, c, t, i + 1, j);
  }
}
