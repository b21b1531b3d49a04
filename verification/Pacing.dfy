/** The token bucket that paces scenario starts, and the launch loop it gates. Times are exact seconds. */
module Pacing {
  import opened Common
  import T = ScenarioTask

  datatype Bucket = Bucket(capacity: real, rate: real, tokens: real, last: real)

  function LeastOf(a: real, b: real): real {
    if a <= b then a else b
  }

  function Accrued(rate: real, elapsed: real): real {
    rate * elapsed
  }

  lemma AccruedAdds(rate: real, a: real, b: real)
    ensures Accrued(rate, a) + Accrued(rate, b) == Accrued(rate, a + b)
  {
  }

  lemma AccruedGrows(rate: real, a: real)
    requires rate >= 0.0 && a >= 0.0
    ensures Accrued(rate, a) >= 0.0
  {
  }

  predicate ValidBucket(b: Bucket) {
    b.rate > 0.0 && b.capacity >= 1.0 && 0.0 <= b.tokens <= b.capacity
  }

  /** Smooth pacing starts half a token full; a burst bucket starts full. */
  function NewBucket(rate: real, burst: nat, now: real): Bucket {
    if burst > 0 then Bucket(burst as real, rate, burst as real, now) else Bucket(1.0, rate, 0.5, now)
  }

  function Refilled(b: Bucket, now: real): Bucket {
    b.(last := now, tokens := LeastOf(b.tokens + Accrued(b.rate, now - b.last), b.capacity))
  }

  /** One turn of acquire: refill, then take a token if a whole one is there. */
  function Polled(b: Bucket, now: real): (Bucket, bool) {
    var r := Refilled(b, now);
    if r.tokens >= 1.0 then (r.(tokens := r.tokens - 1.0), true) else (r, false)
  }

  lemma RefillKeepsValid(b: Bucket, now: real)
    requires ValidBucket(b) && b.last <= now
    ensures ValidBucket(Refilled(b, now)) && ValidBucket(Polled(b, now).0)
  {
    AccruedGrows(b.rate, now - b.last);
  }

  /** Refilling twice is refilling once: a poll that is cancelled without a grant loses no token. */
  lemma RefillTwice(b: Bucket, t: real, u: real)
    requires ValidBucket(b) && b.last <= t <= u
    ensures Refilled(Refilled(b, t), u) == Refilled(b, u)
  {
    AccruedAdds(b.rate, t - b.last, u - t);
    AccruedGrows(b.rate, u - t);
    assert t - b.last + (u - t) == u - b.last;
  }

  lemma WaitAccrues(rate: real, missing: real)
    requires rate > 0.0
    ensures Accrued(rate, missing / rate) == missing
  {
  }

  /** The sleep that acquire computes is enough: after it a whole token is there. */
  lemma ComputedSleepSuffices(b: Bucket, now: real)
    requires ValidBucket(b) && b.last <= now && !Polled(b, now).1
    ensures var r := Polled(b, now).0; 0.0 < (1.0 - r.tokens) / r.rate && Polled(r, now + (1.0 - r.tokens) / r.rate).1
  {
    var r := Polled(b, now).0;
    var wait := (1.0 - r.tokens) / r.rate;
    WaitAccrues(r.rate, 1.0 - r.tokens);
    assert now + wait - r.last == wait;
  }

  /** Without a burst the first start falls exactly in the middle of the first interval. */
  lemma FirstStartIsCentered(rate: real, start: real, now: real)
    requires rate > 0.0 && start <= now
    ensures Polled(NewBucket(rate, 0, start), now).1 <==> Accrued(rate, now - start) >= 0.5
  {
  }

  // ---- Any sequence of polls -------------------------------------------------------------------

  predicate Ascending(from: real, times: seq<real>) {
    (forall i :: 0 <= i < |times| ==> from <= times[i]) && forall i, j :: 0 <= i <= j < |times| ==> times[i] <= times[j]
  }

  function After(b: Bucket, times: seq<real>): Bucket
    decreases |times|
  {
    if times == [] then b else After(Polled(b, times[0]).0, times[1..])
  }

  function Grants(b: Bucket, times: seq<real>): nat
    decreases |times|
  {
    if times == [] then 0 else (if Polled(b, times[0]).1 then 1 else 0) + Grants(Polled(b, times[0]).0, times[1..])
  }

  function EndOf(from: real, times: seq<real>): real {
    if times == [] then from else times[|times| - 1]
  }

  /** Tokens are conserved: grants plus what is left never exceed what was there plus what accrued. */
  lemma {:induction false} GrantsAreBacked(b: Bucket, times: seq<real>)
    requires ValidBucket(b) && Ascending(b.last, times)
    ensures Grants(b, times) as real <= b.tokens + Accrued(b.rate, EndOf(b.last, times) - b.last)
    decreases |times|
  {
    if times == [] {
      AccruedGrows(b.rate, 0.0);
    } else {
      var t := times[0];
      var (b', granted) := Polled(b, t);
      RefillKeepsValid(b, t);
      GrantsAreBacked(b', times[1..]);
      assert EndOf(t, times[1..]) == EndOf(b.last, times);
      AccruedAdds(b.rate, t - b.last, EndOf(b.last, times) - t);
      assert t - b.last + (EndOf(b.last, times) - t) == EndOf(b.last, times) - b.last;
    }
  }

  lemma {:induction false} AfterKeepsValid(b: Bucket, times: seq<real>)
    requires ValidBucket(b) && Ascending(b.last, times)
    ensures ValidBucket(After(b, times)) && After(b, times).last == EndOf(b.last, times)
    ensures After(b, times).rate == b.rate && After(b, times).capacity == b.capacity
    decreases |times|
  {
    if times != [] {
      RefillKeepsValid(b, times[0]);
      AfterKeepsValid(Polled(b, times[0]).0, times[1..]);
    }
  }

  lemma GrantsStep(b: Bucket, times: seq<real>, b': Bucket, granted: bool)
    requires times != [] && Polled(b, times[0]) == (b', granted)
    ensures Grants(b, times) == (if granted then 1 else 0) + Grants(b', times[1..])
  {
  }

  lemma GrantsFromRefilled(b: Bucket, times: seq<real>)
    requires ValidBucket(b) && Ascending(b.last, times) && times != []
    ensures Grants(b, times) == Grants(Refilled(b, times[0]), times)
  {
    RefillTwice(b, times[0], times[0]);
    var (b', granted) := Polled(b, times[0]);
    GrantsStep(b, times, b', granted);
    GrantsStep(Refilled(b, times[0]), times, b', granted);
  }

  lemma WindowFrom(b: Bucket, times: seq<real>)
    requires ValidBucket(b) && Ascending(b.last, times) && times != []
    ensures Grants(b, times) as real <= b.capacity + Accrued(b.rate, EndOf(times[0], times) - times[0])
  {
    GrantsFromRefilled(b, times);
    RefillKeepsValid(b, times[0]);
    GrantsAreBacked(Refilled(b, times[0]), times);
  }

  lemma SuffixAscends(from: real, times: seq<real>, m: nat)
    requires Ascending(from, times) && m < |times|
    ensures Ascending(from, times[..m]) && Ascending(EndOf(from, times[..m]), times[m..])
    ensures EndOf(times[m], times[m..]) == EndOf(from, times) && times[m..][0] == times[m]
  {
  }

  /** In any window of any schedule, grants stay within the capacity plus what accrues in the window. */
  lemma GrantsPerWindow(b: Bucket, times: seq<real>, m: nat)
    requires ValidBucket(b) && Ascending(b.last, times) && m < |times|
    ensures Grants(After(b, times[..m]), times[m..]) as real <= b.capacity + Accrued(b.rate, EndOf(b.last, times) - times[m])
  {
    var before, window := times[..m], times[m..];
    SuffixAscends(b.last, times, m);
    AfterKeepsValid(b, before);
    var b' := After(b, before);
    WindowFrom(b', window);
  }

  // ---- The bucket as an object -----------------------------------------------------------------

  class TokenBucket {
    const capacity: real
    const rate: real
    var tokens: real
    var last: real

    function Value(): Bucket
      reads this
    {
      Bucket(capacity, rate, tokens, last)
    }

    constructor (rate: real, burst: nat, now: real)
      ensures Value() == NewBucket(rate, burst, now)
    {
      this.rate := rate;
      this.capacity := if burst > 0 then burst as real else 1.0;
      this.tokens := if burst > 0 then burst as real else 0.5;
      this.last := now;
    }

    method Refill(now: real)
      modifies this
      ensures Value() == Refilled(old(Value()), now)
    {
      tokens := LeastOf(tokens + Accrued(rate, now - last), capacity);
      last := now;
    }

    method Poll(now: real) returns (granted: bool)
      modifies this
      ensures (Value(), granted) == Polled(old(Value()), now)
    {
      Refill(now);
      granted := tokens >= 1.0;
      if granted {
        tokens := tokens - 1.0;
      }
    }

    /**
     acquire, polled at the given instants. Cancelled before a grant, it leaves the bucket as if it
     had only been refilled.
     */
    method Acquire(wakes: seq<real>) returns (granted: Option<nat>)
      requires ValidBucket(Value()) && Ascending(last, wakes)
      modifies this
      ensures granted.None? ==> Value() == (if wakes == [] then old(Value()) else Refilled(old(Value()), EndOf(0.0, wakes)))
      ensures granted.Some? ==> granted.value < |wakes| && (Value(), true) == Polled(old(Value()), wakes[granted.value])
    {
      ghost var before := Value();
      for n := 0 to |wakes|
        invariant Value() == if n == 0 then before else Refilled(before, wakes[n - 1])
      {
        if n > 0 {
          RefillTwice(before, wakes[n - 1], wakes[n]);
        }
        var ok := Poll(wakes[n]);
        if ok {
          return Some(n);
        }
      }
      return None;
    }
  }

  // ---- The launch loop -------------------------------------------------------------------------

  datatype Plan = Plan(rate: real, burst: nat, concurrency: nat, start: real, duration: real)

  /** What the loop waits for: a task to join, or a timer. */
  datatype Event = Event(at: real, done: Option<T.Ending>)

  /** `records` are the scenario records in the merged metrics; `finished` is their number. */
  datatype Report = Report(started: nat, finished: nat, panicked: nat, peak: nat, launches: seq<real>, records: seq<bool>)

  predicate JoinsOk(events: seq<Event>) {
    forall i :: 0 <= i < |events| && events[i].done.Some? ==> T.Ended(events[i].done.value)
  }

  predicate Chronological(start: real, events: seq<Event>) {
    && (forall i :: 0 <= i < |events| ==> start <= events[i].at)
    && forall i, j :: 0 <= i <= j < |events| ==> events[i].at <= events[j].at
  }

  /** Launch `k` was backed by the initial tokens and what accrued until then. */
  predicate Backed(plan: Plan, launches: seq<real>, k: nat)
    requires k < |launches|
  {
    (k + 1) as real <= NewBucket(plan.rate, plan.burst, plan.start).tokens + Accrued(plan.rate, launches[k] - plan.start)
  }

  lemma GrantIsBacked(b: Bucket, now: real, taken: nat, initial: real, start: real)
    requires ValidBucket(b) && b.last <= now
    requires taken as real + b.tokens <= initial + Accrued(b.rate, b.last - start)
    ensures var (b', granted) := Polled(b, now);
            (taken + if granted then 1 else 0) as real + b'.tokens <= initial + Accrued(b.rate, now - start)
  {
    AccruedAdds(b.rate, b.last - start, now - b.last);
    assert b.last - start + (now - b.last) == now - start;
  }

  /** Tokens taken so far are backed. */
  predicate Funded(plan: Plan, b: Bucket, taken: nat) {
    && ValidBucket(b) && b.rate == plan.rate && plan.start <= b.last
    && taken as real + b.tokens <= NewBucket(plan.rate, plan.burst, plan.start).tokens + Accrued(plan.rate, b.last - plan.start)
  }

  lemma StartsFunded(plan: Plan)
    requires plan.rate > 0.0
    ensures Funded(plan, NewBucket(plan.rate, plan.burst, plan.start), 0)
  {
    AccruedGrows(plan.rate, 0.0);
  }

  lemma PollKeepsFunded(plan: Plan, b: Bucket, now: real, taken: nat)
    requires Funded(plan, b, taken) && b.last <= now
    ensures var (b', granted) := Polled(b, now);
            && b'.last == now && Funded(plan, b', taken + if granted then 1 else 0)
            && (granted ==> (taken + 1) as real <= NewBucket(plan.rate, plan.burst, plan.start).tokens + Accrued(plan.rate, now - plan.start))
  {
    RefillKeepsValid(b, now);
    GrantIsBacked(b, now, taken, NewBucket(plan.rate, plan.burst, plan.start).tokens, plan.start);
  }

  predicate LaunchesOk(plan: Plan, launches: seq<real>) {
    && (forall k :: 0 <= k < |launches| ==> plan.start <= launches[k] < plan.start + plan.duration)
    && forall k :: 0 <= k < |launches| ==> Backed(plan, launches, k)
  }

  lemma LaunchOk(plan: Plan, launches: seq<real>, now: real)
    requires LaunchesOk(plan, launches) && plan.start <= now < plan.start + plan.duration
    requires (|launches| + 1) as real <= NewBucket(plan.rate, plan.burst, plan.start).tokens + Accrued(plan.rate, now - plan.start)
    ensures LaunchesOk(plan, launches + [now])
  {
    var longer := launches + [now];
    forall k | 0 <= k < |longer| ensures Backed(plan, longer, k) {
      if k < |launches| {
        assert Backed(plan, launches, k);
      }
    }
  }

  // ---- Which timers launch -----------------------------------------------------------------------

  /** Tasks started by the events seen so far; `launched[n]` says whether event `n` launched one. */
  function Started(launched: seq<bool>): nat {
    if launched == [] then 0
    else Started(launched[..|launched| - 1]) + if launched[|launched| - 1] then 1 else 0
  }

  /** Tasks joined by the events seen so far: one per joining event while some task is pending. */
  function Joined(events: seq<Event>, launched: seq<bool>): (n: nat)
    requires |launched| <= |events|
    ensures n <= Started(launched)
  {
    if launched == [] then 0
    else
      var before := launched[..|launched| - 1];
      var joined := Joined(events, before);
      joined + if events[|before|].done.Some? && joined < Started(before) then 1 else 0
  }

  /** The next event is a timer before the deadline that finds fewer than `concurrency` tasks pending. */
  predicate Polls(plan: Plan, events: seq<Event>, launched: seq<bool>)
    requires |launched| < |events|
  {
    && events[|launched|].done.None? && events[|launched|].at < plan.start + plan.duration
    && Started(launched) - Joined(events, launched) < Max(plan.concurrency, 1)
  }

  /** The instants at which the bucket was asked for a token. */
  function PollTimes(plan: Plan, events: seq<Event>, launched: seq<bool>): seq<real>
    requires |launched| <= |events|
  {
    if launched == [] then []
    else
      var before := launched[..|launched| - 1];
      PollTimes(plan, events, before) + if Polls(plan, events, before) then [events[|before|].at] else []
  }

  /** The next event launches: it asks for a token, and the bucket has a whole one. */
  ghost predicate Launches(plan: Plan, events: seq<Event>, launched: seq<bool>)
    requires |launched| < |events|
  {
    && Polls(plan, events, launched)
    && Polled(BucketNow(plan, events, launched), events[|launched|].at).1
  }

  /** `launched` says exactly which events launch, up to the first timer at or after the deadline. */
  ghost predicate LaunchesExactly(plan: Plan, events: seq<Event>, launched: seq<bool>) {
    && |launched| <= |events|
    && (forall n :: 0 <= n < |launched| ==> (launched[n] <==> Launches(plan, events, launched[..n])))
    && (|launched| < |events| ==> events[|launched|].at >= plan.start + plan.duration)
  }

  function LaunchTimes(events: seq<Event>, launched: seq<bool>): seq<real>
    requires |launched| <= |events|
  {
    if launched == [] then []
    else
      var n := |launched| - 1;
      LaunchTimes(events, launched[..n]) + if launched[n] then [events[n].at] else []
  }

  /** The records of the tasks joined by the events seen so far, in order. */
  function JoinRecords(events: seq<Event>, launched: seq<bool>): seq<bool>
    requires |launched| <= |events|
  {
    if launched == [] then []
    else
      var before := launched[..|launched| - 1];
      var done := events[|before|].done;
      JoinRecords(events, before) + if done.Some? && Joined(events, before) < Started(before) then T.Records(done.value) else []
  }

  lemma {:induction false} AfterOneMore(b: Bucket, times: seq<real>, t: real)
    ensures After(b, times + [t]) == Polled(After(b, times), t).0
    ensures Grants(b, times + [t]) == Grants(b, times) + if Polled(After(b, times), t).1 then 1 else 0
    decreases |times|
  {
    var more := times + [t];
    if times == [] {
      assert more[1..] == [];
    } else {
      assert more[0] == times[0] && more[1..] == times[1..] + [t];
      AfterOneMore(Polled(b, times[0]).0, times[1..], t);
    }
  }

  /** One more event, unfolded. */
  lemma OneMoreEvent(plan: Plan, events: seq<Event>, launched: seq<bool>, go: bool)
    requires |launched| < |events|
    ensures var more := launched + [go];
            var event, joins := events[|launched|], events[|launched|].done.Some? && Joined(events, launched) < Started(launched);
            && Started(more) == Started(launched) + (if go then 1 else 0)
            && Joined(events, more) == Joined(events, launched) + (if joins then 1 else 0)
            && PollTimes(plan, events, more) == PollTimes(plan, events, launched) + (if Polls(plan, events, launched) then [event.at] else [])
            && LaunchTimes(events, more) == LaunchTimes(events, launched) + (if go then [event.at] else [])
            && JoinRecords(events, more) == JoinRecords(events, launched) + (if joins then T.Records(event.done.value) else [])
  {
    assert (launched + [go])[..|launched|] == launched;
  }

  /** The bucket after the polls seen so far. */
  ghost function BucketNow(plan: Plan, events: seq<Event>, launched: seq<bool>): Bucket
    requires |launched| <= |events|
  {
    After(NewBucket(plan.rate, plan.burst, plan.start), PollTimes(plan, events, launched))
  }

  lemma BucketAfterPoll(plan: Plan, events: seq<Event>, launched: seq<bool>, go: bool)
    requires |launched| < |events|
    ensures Polls(plan, events, launched) ==>
              BucketNow(plan, events, launched + [go]) == Polled(BucketNow(plan, events, launched), events[|launched|].at).0
    ensures !Polls(plan, events, launched) ==> BucketNow(plan, events, launched + [go]) == BucketNow(plan, events, launched)
  {
    var times, at := PollTimes(plan, events, launched), events[|launched|].at;
    OneMoreEvent(plan, events, launched, go);
    if Polls(plan, events, launched) {
      AfterOneMore(NewBucket(plan.rate, plan.burst, plan.start), times, at);
    } else {
      assert times + [] == times;
    }
  }

  lemma ExactSoFar(plan: Plan, events: seq<Event>, launched: seq<bool>, go: bool)
    requires |launched| < |events| && (go <==> Launches(plan, events, launched))
    requires forall n :: 0 <= n < |launched| ==> (launched[n] <==> Launches(plan, events, launched[..n]))
    ensures var more := launched + [go]; forall n :: 0 <= n < |more| ==> (more[n] <==> Launches(plan, events, more[..n]))
  {
    var more := launched + [go];
    forall n | 0 <= n < |more| ensures more[n] <==> Launches(plan, events, more[..n]) {
      assert more[..n] == launched[..n];
      if n == |launched| {
        assert launched[..n] == launched;
      }
    }
  }

  /** Where the loop stands after the events seen so far. */
  ghost predicate At(plan: Plan, events: seq<Event>, launched: seq<bool>, b: Bucket, pending: nat, launches: seq<real>, records: seq<bool>) {
    && |launched| <= |events|
    && (forall n :: 0 <= n < |launched| ==> (launched[n] <==> Launches(plan, events, launched[..n])))
    && b == BucketNow(plan, events, launched)
    && pending == Started(launched) - Joined(events, launched)
    && launches == LaunchTimes(events, launched) && records == JoinRecords(events, launched)
  }

  lemma {:induction false} LaunchTimesCount(events: seq<Event>, launched: seq<bool>)
    requires |launched| <= |events|
    ensures |LaunchTimes(events, launched)| == Started(launched)
  {
    if launched != [] {
      LaunchTimesCount(events, launched[..|launched| - 1]);
    }
  }

  lemma JoinTurn(plan: Plan, events: seq<Event>, launched: seq<bool>, b: Bucket, pending: nat, launches: seq<real>, records: seq<bool>)
    requires At(plan, events, launched, b, pending, launches, records) && |launched| < |events| && events[|launched|].done.Some?
    ensures At(plan, events, launched + [false], b, if pending > 0 then pending - 1 else 0, launches,
               if pending > 0 then records + T.Records(events[|launched|].done.value) else records)
  {
    OneMoreEvent(plan, events, launched, false);
    BucketAfterPoll(plan, events, launched, false);
    ExactSoFar(plan, events, launched, false);
  }

  lemma TimerTurn(plan: Plan, events: seq<Event>, launched: seq<bool>, b: Bucket, pending: nat, launches: seq<real>, records: seq<bool>)
    requires At(plan, events, launched, b, pending, launches, records) && |launched| < |events| && events[|launched|].done.None?
    requires events[|launched|].at < plan.start + plan.duration
    ensures var at := events[|launched|].at;
            if pending < Max(plan.concurrency, 1) then
              var (b', go) := Polled(b, at);
              At(plan, events, launched + [go], b', if go then pending + 1 else pending, if go then launches + [at] else launches, records)
            else At(plan, events, launched + [false], b, pending, launches, records)
  {
    var go := pending < Max(plan.concurrency, 1) && Polled(b, events[|launched|].at).1;
    OneMoreEvent(plan, events, launched, go);
    BucketAfterPoll(plan, events, launched, go);
    ExactSoFar(plan, events, launched, go);
  }

  /** Everything the launch loop keeps. */
  ghost predicate LoopInv(plan: Plan, events: seq<Event>, launched: seq<bool>, b: Bucket, pending: nat, launches: seq<real>,
                          records: seq<bool>, panicked: nat) {
    && At(plan, events, launched, b, pending, launches, records)
    && Funded(plan, b, |launches|) && LaunchesOk(plan, launches)
    && (|launched| < |events| ==> b.last <= events[|launched|].at)
    && |launches| == pending + |records| + panicked && pending <= Max(plan.concurrency, 1)
  }

  lemma LoopStarts(plan: Plan, events: seq<Event>)
    requires plan.rate > 0.0 && Chronological(plan.start, events)
    ensures LoopInv(plan, events, [], NewBucket(plan.rate, plan.burst, plan.start), 0, [], [], 0)
  {
    StartsFunded(plan);
  }

  lemma JoinKeepsLoop(plan: Plan, events: seq<Event>, launched: seq<bool>, b: Bucket, pending: nat, launches: seq<real>,
                      records: seq<bool>, panicked: nat)
    requires LoopInv(plan, events, launched, b, pending, launches, records, panicked) && Chronological(plan.start, events)
    requires |launched| < |events| && events[|launched|].done.Some? && T.Ended(events[|launched|].done.value)
    ensures var e := events[|launched|].done.value;
            if pending > 0 then
              LoopInv(plan, events, launched + [false], b, pending - 1, launches, records + T.Records(e), panicked + if e.panicked then 1 else 0)
            else LoopInv(plan, events, launched + [false], b, pending, launches, records, panicked)
  {
    JoinTurn(plan, events, launched, b, pending, launches, records);
    T.EndedTaskIsRecordedOnce(events[|launched|].done.value);
    assert |launched| + 1 < |events| ==> events[|launched|].at <= events[|launched| + 1].at;
  }

  lemma FullKeepsLoop(plan: Plan, events: seq<Event>, launched: seq<bool>, b: Bucket, pending: nat, launches: seq<real>,
                      records: seq<bool>, panicked: nat)
    requires LoopInv(plan, events, launched, b, pending, launches, records, panicked) && Chronological(plan.start, events)
    requires |launched| < |events| && events[|launched|].done.None? && events[|launched|].at < plan.start + plan.duration
    requires pending >= Max(plan.concurrency, 1)
    ensures LoopInv(plan, events, launched + [false], b, pending, launches, records, panicked)
  {
    TimerTurn(plan, events, launched, b, pending, launches, records);
    assert |launched| + 1 < |events| ==> events[|launched|].at <= events[|launched| + 1].at;
  }

  lemma PollKeepsLoop(plan: Plan, events: seq<Event>, launched: seq<bool>, b: Bucket, pending: nat, launches: seq<real>,
                      records: seq<bool>, panicked: nat, b': Bucket, go: bool)
    requires LoopInv(plan, events, launched, b, pending, launches, records, panicked) && Chronological(plan.start, events)
    requires |launched| < |events| && events[|launched|].done.None? && events[|launched|].at < plan.start + plan.duration
    requires pending < Max(plan.concurrency, 1) && (b', go) == Polled(b, events[|launched|].at)
    ensures if go then LoopInv(plan, events, launched + [go], b', pending + 1, launches + [events[|launched|].at], records, panicked)
            else LoopInv(plan, events, launched + [go], b', pending, launches, records, panicked)
  {
    var at := events[|launched|].at;
    TimerTurn(plan, events, launched, b, pending, launches, records);
    PollKeepsFunded(plan, b, at, |launches|);
    assert |launched| + 1 < |events| ==> at <= events[|launched| + 1].at;
    if go {
      LaunchOk(plan, launches, at);
    }
  }

  /**
   run_once: a timer before the deadline launches exactly when fewer than `concurrency` tasks are
   pending and the bucket has a token; no launch falls at or after the deadline, every launch is
   backed by a token, and every started task is accounted for at the end: the metrics hold exactly
   one record of each task that did not panic. `drained` says how the tasks still pending after the
   window end.
   */
  method RunOnce(plan: Plan, events: seq<Event>, drained: nat -> T.Ending) returns (report: Report, launched: seq<bool>)
    requires plan.rate > 0.0 && plan.duration >= 0.0 && Chronological(plan.start, events) && JoinsOk(events)
    requires forall k: nat :: T.Ended(drained(k))
    ensures LaunchesExactly(plan, events, launched)
    ensures report.launches == LaunchTimes(events, launched) && JoinRecords(events, launched) <= report.records
    ensures report.finished == |report.records|
    ensures report.started == report.finished + report.panicked == |report.launches|
    ensures report.peak <= Max(plan.concurrency, 1)
    ensures LaunchesOk(plan, report.launches)
  {
    var concurrency := Max(plan.concurrency, 1);
    var bucket := new TokenBucket(plan.rate, plan.burst, plan.start);
    LoopStarts(plan, events);
    var launches: seq<real> := [];
    var records: seq<bool> := [];
    var pending: nat, panicked: nat, peak: nat := 0, 0, 0;
    launched := [];
    while |launched| < |events|
      invariant LoopInv(plan, events, launched, bucket.Value(), pending, launches, records, panicked) && peak <= concurrency
      decreases |events| - |launched|
    {
      var event := events[|launched|];
      if event.done.Some? {
        JoinKeepsLoop(plan, events, launched, bucket.Value(), pending, launches, records, panicked);
        if pending > 0 {
          pending := pending - 1;
          records := records + T.Records(event.done.value);
          panicked := panicked + if event.done.value.panicked then 1 else 0;
        }
        launched := launched + [false];
      } else if event.at >= plan.start + plan.duration {
        break;
      } else if pending < concurrency {
        ghost var before := bucket.Value();
        var granted := bucket.Poll(event.at);
        PollKeepsLoop(plan, events, launched, before, pending, launches, records, panicked, bucket.Value(), granted);
        if granted {
          launches := launches + [event.at];
          pending := pending + 1;
          peak := if pending > peak then pending else peak;
        }
        launched := launched + [granted];
      } else {
        FullKeepsLoop(plan, events, launched, bucket.Value(), pending, launches, records, panicked);
        launched := launched + [false];
      }
    }
    var drainedRecords, drainedPanics := Drain(pending, drained);
    records := records + drainedRecords;
    panicked := panicked + drainedPanics;
    report := Report(|launches|, |records|, panicked, peak, launches, records);
  }

  /** Joins every task still pending. */
  method Drain(pending: nat, drained: nat -> T.Ending) returns (records: seq<bool>, panicked: nat)
    requires forall k: nat :: T.Ended(drained(k))
    ensures |records| + panicked == pending
  {
    records, panicked := [], 0;
    for k := 0 to pending
      invariant |records| + panicked == k
    {
      T.EndedTaskIsRecordedOnce(drained(k));
      records := records + T.Records(drained(k));
      panicked := panicked + if drained(k).panicked then 1 else 0;
    }
  }

  // ---- What that means ---------------------------------------------------------------------------

  /** The timers before the deadline among the first `n` events. */
  function TimersBefore(plan: Plan, events: seq<Event>, n: nat): seq<real>
    requires n <= |events|
  {
    if n == 0 then []
    else TimersBefore(plan, events, n - 1)
         + if events[n - 1].done.None? && events[n - 1].at < plan.start + plan.duration then [events[n - 1].at] else []
  }

  lemma {:induction false} StartedAtMost(launched: seq<bool>)
    ensures Started(launched) <= |launched|
  {
    if launched != [] {
      StartedAtMost(launched[..|launched| - 1]);
    }
  }

  lemma UnlimitedStep(plan: Plan, events: seq<Event>, before: seq<bool>, go: bool, timers: seq<real>)
    requires |before| < |events| <= plan.concurrency && timers == PollTimes(plan, events, before)
    requires go <==> Launches(plan, events, before)
    requires Started(before) == Grants(NewBucket(plan.rate, plan.burst, plan.start), timers)
    ensures var event := events[|before|];
            var more := timers + if event.done.None? && event.at < plan.start + plan.duration then [event.at] else [];
            && PollTimes(plan, events, before + [go]) == more
            && Started(before + [go]) == Grants(NewBucket(plan.rate, plan.burst, plan.start), more)
  {
    OneMoreEvent(plan, events, before, go);
    StartedAtMost(before);
    if Polls(plan, events, before) {
      AfterOneMore(NewBucket(plan.rate, plan.burst, plan.start), timers, events[|before|].at);
    } else {
      assert timers + [] == timers;
    }
  }

  lemma {:induction false} UnlimitedPolls(plan: Plan, events: seq<Event>, launched: seq<bool>, n: nat)
    requires LaunchesExactly(plan, events, launched) && n <= |launched| && |events| <= plan.concurrency
    ensures PollTimes(plan, events, launched[..n]) == TimersBefore(plan, events, n)
    ensures Started(launched[..n]) == Grants(NewBucket(plan.rate, plan.burst, plan.start), TimersBefore(plan, events, n))
    decreases n
  {
    if n > 0 {
      UnlimitedPolls(plan, events, launched, n - 1);
      assert launched[..n] == launched[..n - 1] + [launched[n - 1]];
      UnlimitedStep(plan, events, launched[..n - 1], launched[n - 1], TimersBefore(plan, events, n - 1));
    }
  }

  /** When the limit never binds, the run starts exactly one task per token the bucket grants at its timers. */
  lemma UnlimitedRunStartsEveryGrant(plan: Plan, events: seq<Event>, launched: seq<bool>)
    requires LaunchesExactly(plan, events, launched) && |events| <= plan.concurrency
    ensures |LaunchTimes(events, launched)|
         == Grants(NewBucket(plan.rate, plan.burst, plan.start), TimersBefore(plan, events, |launched|))
  {
    assert launched[..|launched|] == launched;
    UnlimitedPolls(plan, events, launched, |launched|);
    LaunchTimesCount(events, launched);
  }

  /** A scenario with a burst starts at its first timer, whatever its concurrency. */
  lemma FirstTimerLaunches(plan: Plan, events: seq<Event>, launched: seq<bool>)
    requires LaunchesExactly(plan, events, launched) && Chronological(plan.start, events) && plan.rate > 0.0 && plan.burst > 0
    requires events != [] && events[0].done.None? && events[0].at < plan.start + plan.duration
    ensures launched != [] && launched[0] && LaunchTimes(events, launched) != [] && LaunchTimes(events, launched)[0] == events[0].at
  {
    assert launched[..0] == [];
    RefillKeepsValid(NewBucket(plan.rate, plan.burst, plan.start), events[0].at);
    AccruedGrows(plan.rate, events[0].at - plan.start);
    assert Launches(plan, events, launched[..0]);
    FirstLaunchTime(events, launched);
  }

  lemma {:induction false} FirstLaunchTime(events: seq<Event>, launched: seq<bool>)
    requires 0 < |launched| <= |events| && launched[0]
    ensures LaunchTimes(events, launched) != [] && LaunchTimes(events, launched)[0] == events[0].at
    decreases |launched|
  {
    if |launched| > 1 {
      FirstLaunchTime(events, launched[..|launched| - 1]);
    } else {
      assert LaunchTimes(events, launched[..0]) == [];
    }
  }
}
