/**
 The Redis dispatch ledger of one scenario: a schedule hash with one active window, its per-slice
 acknowledgement flags and their count. Both scripts are guarded by the current leader's owner
 token and fence.
 */
module DispatchLedger {
  import opened Common

  const MAX_DISPATCH_SLICES: nat := 4096

  datatype Repeat = Once | Every(ms: int)

  datatype Spec = Spec(version: nat, total: nat, repeat: Repeat, fingerprint: string)

  /** The components of the window id string of a given scenario. */
  datatype WindowId = WindowId(version: nat, scheduledAt: int, total: nat)

  datatype Active = Active(id: WindowId, scheduledAt: int, version: nat, total: nat, repeat: Repeat,
                           fingerprint: string, ackCount: int)

  datatype Schedule = Schedule(active: Option<Active>, acks: set<nat>, onceDone: bool, nextAt: Option<int>,
                               lastCompleted: Option<WindowId>)

  datatype Window = Window(id: WindowId, total: nat, fingerprint: string, missing: seq<nat>)

  datatype PrepareReply = Ready(window: Window) | NotDue(retryAfter: int) | Finished | PrepareStale | PrepareInvalid

  datatype AckReply = Pending(remaining: int) | Complete | AckStale | AckInvalid

  datatype Caller = Caller(token: Token, fence: nat)

  function Empty(): Schedule {
    Schedule(None, {}, false, None, None)
  }

  /** The argument checks made before the script is sent. */
  predicate ValidSpec(spec: Spec) {
    && spec.version > 0 && 1 <= spec.total <= MAX_DISPATCH_SLICES && spec.fingerprint != ""
    && (spec.repeat.Every? ==> spec.repeat.ms >= 1)
  }

  /** Indices below `n` without an acknowledgement flag, in increasing order. */
  function Missing(acks: set<nat>, n: nat): seq<nat> {
    if n == 0 then []
    else if n - 1 in acks then Missing(acks, n - 1)
    else Missing(acks, n - 1) + [n - 1]
  }

  function FlagCount(acks: set<nat>, n: nat): nat {
    if n == 0 then 0 else FlagCount(acks, n - 1) + (if n - 1 in acks then 1 else 0)
  }

  function PrepareStep(sch: Schedule, current: bool, spec: Spec, now: int): (Schedule, PrepareReply) {
    if !ValidSpec(spec) then (sch, PrepareInvalid)
    else if !current then (sch, PrepareStale)
    else
      match sch.active
      case Some(a) =>
        if a.version != spec.version || a.total != spec.total || a.repeat != spec.repeat || a.fingerprint != spec.fingerprint
        then (sch, PrepareInvalid)
        else if a.ackCount != FlagCount(sch.acks, spec.total) || Missing(sch.acks, spec.total) == [] then (sch, PrepareInvalid)
        else (sch, Ready(Window(a.id, spec.total, spec.fingerprint, Missing(sch.acks, spec.total))))
      case None =>
        if spec.repeat.Once? && sch.onceDone then (sch, Finished)
        else
          var at := if sch.nextAt.Some? then sch.nextAt.value else now;
          if at > now then (sch, NotDue(at - now))
          else
            var id := WindowId(spec.version, at, spec.total);
            (sch.(active := Some(Active(id, at, spec.version, spec.total, spec.repeat, spec.fingerprint, 0))),
             Ready(Window(id, spec.total, spec.fingerprint, Missing({}, spec.total))))
  }

  function AckStep(sch: Schedule, current: bool, w: Window, slice: nat): (Schedule, AckReply) {
    if slice >= w.total || w.total > MAX_DISPATCH_SLICES then (sch, AckInvalid)
    else if !current then (sch, AckStale)
    else
      match sch.active
      case None => (sch, if sch.lastCompleted == Some(w.id) then Complete else AckInvalid)
      case Some(a) =>
        if a.id != w.id || a.total != w.total || a.fingerprint != w.fingerprint
           || (a.repeat.Every? && a.repeat.ms <= 0) || a.ackCount < 0 || a.ackCount > a.total
        then (sch, AckInvalid)
        else
          var count := if slice in sch.acks then a.ackCount else a.ackCount + 1;
          var flagged := sch.(acks := sch.acks + {slice}, active := Some(a.(ackCount := count)));
          if count < a.total then (flagged, Pending(a.total - count))
          else if count > a.total then (flagged, AckInvalid)
          else (Completed(flagged, a), Complete)
  }

  /** The window is finished: advance the schedule and clear the active fields and flags. */
  function Completed(sch: Schedule, a: Active): Schedule {
    Schedule(None, sch.acks - Upto(a.total),
             if a.repeat.Once? then true else sch.onceDone,
             if a.repeat.Once? then None else Some(a.scheduledAt + a.repeat.ms),
             Some(a.id))
  }

  // ---- The hash and its scripts in place -----------------------------------------------------

  class ScheduleHash {
    var active: Option<Active>
    var acks: set<nat>
    var onceDone: bool
    var nextAt: Option<int>
    var lastCompleted: Option<WindowId>

    function Value(): Schedule
      reads this
    {
      Schedule(active, acks, onceDone, nextAt, lastCompleted)
    }

    constructor ()
      ensures Value() == Empty()
    {
      active, acks, onceDone, nextAt, lastCompleted := None, {}, false, None, None;
    }

    method PrepareWindow(spec: Spec, current: bool, now: int) returns (reply: PrepareReply)
      modifies this
      ensures (Value(), reply) == PrepareStep(old(Value()), current, spec, now)
    {
      if !ValidSpec(spec) {
        return PrepareInvalid;
      }
      if !current {
        return PrepareStale;
      }
      if active.Some? {
        var a := active.value;
        if a.version != spec.version || a.total != spec.total || a.repeat != spec.repeat || a.fingerprint != spec.fingerprint {
          return PrepareInvalid;
        }
        var missing, acked := [], 0;
        for index := 0 to spec.total
          invariant missing == Missing(acks, index) && acked == FlagCount(acks, index)
        {
          if index in acks {
            acked := acked + 1;
          } else {
            missing := missing + [index];
          }
        }
        if a.ackCount != acked || missing == [] {
          return PrepareInvalid;
        }
        return Ready(Window(a.id, spec.total, spec.fingerprint, missing));
      }
      if spec.repeat.Once? && onceDone {
        return Finished;
      }
      var at := if nextAt.Some? then nextAt.value else now;
      if at > now {
        return NotDue(at - now);
      }
      var id := WindowId(spec.version, at, spec.total);
      active := Some(Active(id, at, spec.version, spec.total, spec.repeat, spec.fingerprint, 0));
      var missing := [];
      for index := 0 to spec.total
        invariant missing == Missing({}, index)
      {
        missing := missing + [index];
      }
      return Ready(Window(id, spec.total, spec.fingerprint, missing));
    }

    method AckSlice(w: Window, slice: nat, current: bool) returns (reply: AckReply)
      modifies this
      ensures (Value(), reply) == AckStep(old(Value()), current, w, slice)
    {
      if slice >= w.total || w.total > MAX_DISPATCH_SLICES {
        return AckInvalid;
      }
      if !current {
        return AckStale;
      }
      if active.None? {
        return if lastCompleted == Some(w.id) then Complete else AckInvalid;
      }
      var a := active.value;
      if a.id != w.id || a.total != w.total || a.fingerprint != w.fingerprint {
        return AckInvalid;
      }
      if (a.repeat.Every? && a.repeat.ms <= 0) || a.ackCount < 0 || a.ackCount > a.total {
        return AckInvalid;
      }
      var count := FlagSlice(a, slice);
      var remaining := a.total - count;
      if remaining > 0 {
        return Pending(remaining);
      }
      if remaining < 0 {
        return AckInvalid;
      }
      FinishWindow(a);
      return Complete;
    }

    /** HSETNX of the flag, and HINCRBY of the count when the flag is new. */
    method FlagSlice(a: Active, slice: nat) returns (count: int)
      requires active == Some(a)
      modifies this`acks, this`active
      ensures count == if slice in old(acks) then a.ackCount else a.ackCount + 1
      ensures acks == old(acks) + {slice} && active == Some(a.(ackCount := count))
    {
      count := a.ackCount;
      if slice !in acks {
        acks := acks + {slice};
        count := count + 1;
        active := Some(a.(ackCount := count));
      }
    }

    /** Advances the schedule and deletes the active fields. */
    method FinishWindow(a: Active)
      modifies this
      ensures Value() == Completed(old(Value()), a)
    {
      if a.repeat.Once? {
        onceDone := true;
        nextAt := None;
      } else {
        nextAt := Some(a.scheduledAt + a.repeat.ms);
      }
      lastCompleted := Some(a.id);
      ClearFlags(a.total);
      active := None;
    }

    /** The deletion loop at the end of `ack_slice`. */
    method ClearFlags(total: nat)
      modifies this`acks
      ensures acks == old(acks) - Upto(total)
    {
      for index := 0 to total
        invariant acks == old(acks) - Upto(index)
      {
        acks := acks - {index};
      }
    }
  }

  // ---- Facts about the specification ---------------------------------------------------------

  lemma {:induction false} MissingMeansUnflagged(acks: set<nat>, n: nat)
    ensures forall i :: i in Missing(acks, n) <==> 0 <= i < n && i !in acks
    ensures forall i, j :: 0 <= i < j < |Missing(acks, n)| ==> Missing(acks, n)[i] < Missing(acks, n)[j]
    ensures |Missing(acks, n)| + FlagCount(acks, n) == n
  {
    if n > 0 {
      MissingMeansUnflagged(acks, n - 1);
      var m := Missing(acks, n - 1);
      assert forall k :: 0 <= k < |m| ==> m[k] in m;
    }
  }

  lemma IntersectOneMore<T>(a: set<T>, b: set<T>, x: T)
    requires x !in b
    ensures |a * (b + {x})| == |a * b| + if x in a then 1 else 0
  {
    if x in a {
      assert a * (b + {x}) == (a * b) + {x};
    } else {
      assert a * (b + {x}) == a * b;
    }
  }

  lemma {:induction false} FlagCountIsSize(acks: set<nat>, n: nat)
    ensures FlagCount(acks, n) == |acks * Upto(n)|
  {
    if n > 0 {
      FlagCountIsSize(acks, n - 1);
      assert Upto(n) == Upto(n - 1) + {n - 1};
      IntersectOneMore(acks, Upto(n - 1), n - 1);
    } else {
      assert acks * Upto(0) == {};
    }
  }
}
