/**
 The Redis leader record and its monotonic fence counter: acquire, renew and relinquish scripts.
 The record's PEXPIRE instant is the lease itself.
 */
module LeaderLease {
  import opened Common

  datatype Leader = Leader(owner: Token, fence: nat, expireAt: int)

  /** `fences` is the fence counter key, which never expires. */
  datatype Election = Election(leader: Option<Leader>, fences: nat)

  datatype AcquireReply = Acquired(fence: nat, until: int) | Follower(retryAfter: int)

  datatype OwnerReply = Done(until: int) | Missing | Stale

  function AcquireStep(e: Election, token: Token, now: int, ttlMs: int): (Election, AcquireReply) {
    match e.leader
    case None =>
      (Election(Some(Leader(token, e.fences + 1, now + ttlMs)), e.fences + 1),
       Acquired(e.fences + 1, now + ttlMs))
    case Some(l) => (e, Follower(l.expireAt - now))
  }

  predicate HeldBy(e: Election, token: Token, fence: nat) {
    e.leader.Some? && e.leader.value.owner == token && e.leader.value.fence == fence
  }

  function RenewStep(e: Election, token: Token, fence: nat, now: int, ttlMs: int): (Election, OwnerReply) {
    if HeldBy(e, token, fence) then
      (e.(leader := Some(e.leader.value.(expireAt := now + ttlMs))), Done(now + ttlMs))
    else (e, Stale)
  }

  function RelinquishStep(e: Election, token: Token, fence: nat, now: int): (Election, OwnerReply) {
    if e.leader.None? then (e, Missing)
    else if HeldBy(e, token, fence) then (e.(leader := None), Done(now))
    else (e, Stale)
  }

  /** `leader_is_current`: the guard of every dispatch-ledger script. */
  predicate IsCurrent(e: Election, token: Token, fence: nat, now: int) {
    HeldBy(e, token, fence) && e.leader.value.expireAt > now
  }

  class LeaderRecord {
    var owner: Option<Token>
    var fence: nat
    var expireAt: int
    var fences: nat

    function Value(): Election
      reads this
    {
      Election(if owner.Some? then Some(Leader(owner.value, fence, expireAt)) else None, fences)
    }

    constructor ()
      ensures Value() == Election(None, 0)
    {
      owner, fence, expireAt, fences := None, 0, 0, 0;
    }

    method Acquire(token: Token, now: int, ttlMs: int) returns (reply: AcquireReply)
      modifies this
      ensures (Value(), reply) == AcquireStep(old(Value()), token, now, ttlMs)
    {
      if owner.None? {
        fences := fences + 1;
        owner, fence := Some(token), fences;
        expireAt := now + ttlMs;
        return Acquired(fence, expireAt);
      }
      return Follower(expireAt - now);
    }

    method Renew(token: Token, ownFence: nat, now: int, ttlMs: int) returns (reply: OwnerReply)
      modifies this
      ensures (Value(), reply) == RenewStep(old(Value()), token, ownFence, now, ttlMs)
    {
      if owner != Some(token) || fence != ownFence {
        return Stale;
      }
      expireAt := now + ttlMs;
      return Done(expireAt);
    }

    method Relinquish(token: Token, ownFence: nat, now: int) returns (reply: OwnerReply)
      modifies this
      ensures (Value(), reply) == RelinquishStep(old(Value()), token, ownFence, now)
    {
      if owner.None? {
        return Missing;
      }
      if owner != Some(token) || fence != ownFence {
        return Stale;
      }
      owner := None;
      return Done(now);
    }
  }
}
