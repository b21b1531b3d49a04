/**
 Timed mutual exclusion. Clients anchor a local monotonic deadline at the start of each Redis
 request; Redis floors its own clock to milliseconds. Requests and responses may be delayed,
 lost or executed after their sender gave up; clients may stop at any point.
 */
module LeaseTiming {
  import opened Common
  import E = ExecutionLease
  import L = LeaderLease

  /** Lease lifetime and renewal reserve, in nanoseconds. */
  datatype Config = Config(ttl: int, reserve: int)

  /** `duration_ms` rejects lifetimes below one millisecond. */
  predicate ValidConfig(cfg: Config) {
    cfg.ttl >= MS && cfg.reserve >= 0
  }

  function LeaseMs(cfg: Config): int {
    cfg.ttl / MS
  }

  /** `ttl.saturating_sub(reserve)`. */
  function Budget(cfg: Config): int {
    if cfg.ttl > cfg.reserve then cfg.ttl - cfg.reserve else 0
  }

  /** `conservative_lease_deadline`. */
  function Deadline(cfg: Config, requestStarted: int): int {
    requestStarted + Budget(cfg)
  }

  /** The reserve covers what flooring the lifetime and flooring the Redis clock can take away. */
  predicate ReserveCoversRounding(cfg: Config) {
    cfg.ttl <= cfg.reserve || cfg.reserve >= cfg.ttl % MS + MS - 1
  }

  /** Startup validation: both settings are whole milliseconds and the interval is positive. */
  lemma WholeMillisecondConfigIsSafe(ttlMs: int, renewMs: int)
    requires renewMs >= 1 && ttlMs >= 3 * renewMs
    ensures var cfg := Config(ttlMs * MS, renewMs * MS);
            ValidConfig(cfg) && ReserveCoversRounding(cfg) && Budget(cfg) >= MS
  {
  }

  /** The budget ends no later than the millisecond-floored lease, whatever instant granted it, exactly under that condition. */
  lemma BudgetNeverOutlivesLease(cfg: Config)
    requires ValidConfig(cfg)
    ensures (forall granted: int :: granted + Budget(cfg) <= (FloorMs(granted) + LeaseMs(cfg)) * MS)
            <==> ReserveCoversRounding(cfg)
  {
    if !ReserveCoversRounding(cfg) {
      var granted := MS - 1;
      assert granted + Budget(cfg) > (FloorMs(granted) + LeaseMs(cfg)) * MS;
    }
  }

  // ---- The protocol ------------------------------------------------------------------------

  /** What a lease record says to other clients: free, held until a Redis millisecond, or closed. */
  datatype Cell = Free | Held(owner: Token, until: int) | Closed

  datatype Kind = ClaimKind | RenewKind | CloseKind

  /** `start` is the sender's local instant just before the request was sent. */
  datatype Request = Request(kind: Kind, token: Token, start: int)

  datatype Phase = Asking | Holding(deadline: int) | Quit

  /** Each client reads its own monotonic clock, `skew` away from the reference clock. */
  datatype Client = Client(skew: int, phase: Phase)

  datatype Sys = Sys(now: int, redisSkew: int, cell: Cell, clients: map<Token, Client>,
                     requests: set<Request>, grants: set<Request>)

  function RedisMs(s: Sys): int {
    FloorMs(s.now + s.redisSkew)
  }

  function Local(s: Sys, token: Token): int
    requires token in s.clients
  {
    s.now + s.clients[token].skew
  }

  /** One atomic Redis script, seen through the cell. */
  predicate CellStep(cell: Cell, kind: Kind, token: Token, now: int, leaseMs: int, cell': Cell, granted: bool) {
    match kind
    case ClaimKind =>
      if granted then
        && (cell.Free? || (cell.Held? && cell.until <= now))
        && cell' == Held(token, now + leaseMs)
      else cell' == cell
    case RenewKind =>
      if granted then
        && cell.Held? && cell.owner == token
        && cell' == Held(token, now + leaseMs)
      else cell' == cell
    case CloseKind =>
      && !granted
      && (cell' == cell || (cell.Held? && cell.owner == token && !cell'.Held?))
  }

  /** Redis removes a key whose retention ran out; a held lease has lapsed by then. */
  predicate EvictStep(cell: Cell, now: int, cell': Cell) {
    cell' == Free && (cell.Held? ==> cell.until <= now)
  }

  datatype Action =
    | Tick(elapsed: nat)
    | Ask(token: Token, skew: int)
    | SendRenew(token: Token)
    | SendClose(token: Token)
    | RedisExec(request: Request, cell': Cell, granted: bool)
    | RedisEvict
    | Receive(grant: Request)
    | DropRequest(request: Request)
    | DropGrant(grant: Request)
    | Stop(token: Token)

  /** Everything a step does apart from what the Redis script may do to the record. */
  ghost predicate Frame(s: Sys, a: Action, s': Sys, cfg: Config) {
    match a
    case Tick(elapsed) => s' == s.(now := s.now + elapsed)
    case Ask(token, skew) =>
      && token !in s.clients
      && s' == s.(clients := s.clients[token := Client(skew, Asking)],
                  requests := s.requests + {Request(ClaimKind, token, s.now + skew)})
    case SendRenew(token) =>
      && token in s.clients
      && s' == s.(requests := s.requests + {Request(RenewKind, token, Local(s, token))})
    case SendClose(token) =>
      && token in s.clients
      && s' == s.(clients := s.clients[token := s.clients[token].(phase := Quit)],
                  requests := s.requests + {Request(CloseKind, token, Local(s, token))})
    case RedisExec(request, cell', granted) =>
      && request in s.requests
      && s' == s.(cell := cell', requests := s.requests - {request},
                  grants := if granted then s.grants + {request} else s.grants)
    case RedisEvict => s' == s.(cell := s'.cell)
    case Receive(grant) =>
      && grant in s.grants && grant.token in s.clients
      && var client := s.clients[grant.token];
      && (if grant.kind.ClaimKind? then client.phase.Asking? else client.phase.Holding?)
      && var deadline := Deadline(cfg, grant.start);
      && var phase := if deadline <= Local(s, grant.token) then Quit else Holding(deadline);
      && s' == s.(clients := s.clients[grant.token := client.(phase := phase)], grants := s.grants - {grant})
    case DropRequest(request) => s' == s.(requests := s.requests - {request})
    case DropGrant(grant) => s' == s.(grants := s.grants - {grant})
    case Stop(token) =>
      && token in s.clients
      && s' == s.(clients := s.clients[token := s.clients[token].(phase := Quit)])
  }

  predicate CellRule(s: Sys, a: Action, s': Sys, cfg: Config) {
    match a
    case RedisExec(r, cell', granted) => CellStep(s.cell, r.kind, r.token, RedisMs(s), LeaseMs(cfg), cell', granted)
    case RedisEvict => EvictStep(s.cell, RedisMs(s), s'.cell)
    case _ => true
  }

  ghost predicate Next(s: Sys, a: Action, s': Sys, cfg: Config) {
    Frame(s, a, s', cfg) && CellRule(s, a, s', cfg)
  }

  predicate Init(s: Sys) {
    s.cell == Free && s.clients == map[] && s.requests == {} && s.grants == {}
  }

  ghost predicate Run(states: seq<Sys>, actions: seq<Action>, cfg: Config) {
    && |states| == |actions| + 1
    && Init(states[0])
    && forall i :: 0 <= i < |actions| ==> Next(states[i], actions[i], states[i + 1], cfg)
  }

  /** A client believes it holds the lease: it has a local deadline and has not reached it. */
  predicate Believes(s: Sys, token: Token) {
    token in s.clients && s.clients[token].phase.Holding? && Local(s, token) < s.clients[token].phase.deadline
  }

  ghost predicate MutualExclusion(s: Sys) {
    forall a, b :: Believes(s, a) && Believes(s, b) ==> a == b
  }

  // ---- The invariant -----------------------------------------------------------------------

  /** If local instant `deadline` is still ahead, Redis records this token as owner at least until then. */
  predicate Backed(s: Sys, token: Token, deadline: int)
    requires token in s.clients
  {
    Local(s, token) < deadline ==>
      && s.cell.Held? && s.cell.owner == token
      && deadline - s.clients[token].skew + s.redisSkew <= s.cell.until * MS
  }

  ghost predicate Inv(s: Sys, cfg: Config) {
    && (forall r :: r in s.requests ==>
          r.token in s.clients && r.start <= Local(s, r.token) && (r.kind.CloseKind? ==> s.clients[r.token].phase.Quit?))
    && (forall g :: g in s.grants ==>
          && g.token in s.clients && g.start <= Local(s, g.token)
          && (!s.clients[g.token].phase.Quit? ==> Backed(s, g.token, Deadline(cfg, g.start))))
    && (forall t :: t in s.clients && s.clients[t].phase.Holding? ==>
          && s.clients[t].phase.deadline <= Local(s, t) + Budget(cfg)
          && Backed(s, t, s.clients[t].phase.deadline))
  }

  /** A script that grants a request backs the deadline that its sender will compute. */
  lemma GrantBacksDeadline(s: Sys, r: Request, s': Sys, cfg: Config)
    requires ValidConfig(cfg) && ReserveCoversRounding(cfg)
    requires r.token in s.clients && r.start <= Local(s, r.token)
    requires s'.clients == s.clients && s'.now == s.now && s'.redisSkew == s.redisSkew
    requires s'.cell == Held(r.token, RedisMs(s) + LeaseMs(cfg))
    ensures Backed(s', r.token, Deadline(cfg, r.start))
  {
    BudgetNeverOutlivesLease(cfg);
    var granted := s.now + s.redisSkew;
    assert granted + Budget(cfg) <= (FloorMs(granted) + LeaseMs(cfg)) * MS;
  }

  /** Backing survives a script run by somebody else, and a renewal of one's own lease. */
  lemma BackingSurvives(s: Sys, token: Token, deadline: int, s': Sys, r: Request, granted: bool, cfg: Config)
    requires ValidConfig(cfg) && ReserveCoversRounding(cfg)
    requires token in s.clients && Backed(s, token, deadline)
    requires s'.clients == s.clients && s'.now == s.now && s'.redisSkew == s.redisSkew
    requires CellStep(s.cell, r.kind, r.token, RedisMs(s), LeaseMs(cfg), s'.cell, granted)
    requires r.token == token ==> !r.kind.CloseKind?
    requires deadline <= Local(s, token) + Budget(cfg)
    ensures Backed(s', token, deadline)
  {
    if Local(s, token) < deadline && granted && r.token == token {
      BudgetNeverOutlivesLease(cfg);
      var now := s.now + s.redisSkew;
      assert now + Budget(cfg) <= (FloorMs(now) + LeaseMs(cfg)) * MS;
    }
  }

  lemma ExecKeepsInv(s: Sys, r: Request, cell': Cell, granted: bool, s': Sys, cfg: Config)
    requires ValidConfig(cfg) && ReserveCoversRounding(cfg) && Inv(s, cfg)
    requires Next(s, RedisExec(r, cell', granted), s', cfg)
    ensures Inv(s', cfg)
  {
    forall g | g in s'.grants && !s'.clients[g.token].phase.Quit?
      ensures Backed(s', g.token, Deadline(cfg, g.start))
    {
      if g in s.grants {
        BackingSurvives(s, g.token, Deadline(cfg, g.start), s', r, granted, cfg);
      } else {
        GrantBacksDeadline(s, r, s', cfg);
      }
    }
    forall t | t in s'.clients && s'.clients[t].phase.Holding?
      ensures Backed(s', t, s'.clients[t].phase.deadline)
    {
      BackingSurvives(s, t, s.clients[t].phase.deadline, s', r, granted, cfg);
    }
  }

  lemma TimeKeepsInv(s: Sys, a: Action, s': Sys, cfg: Config)
    requires Inv(s, cfg) && Next(s, a, s', cfg) && (a.Tick? || a.RedisEvict? || a.DropRequest? || a.DropGrant?)
    ensures Inv(s', cfg)
  {
  }

  lemma AskKeepsInv(s: Sys, a: Action, s': Sys, cfg: Config)
    requires Inv(s, cfg) && Next(s, a, s', cfg) && (a.Ask? || a.SendRenew?)
    ensures Inv(s', cfg)
  {
  }

  lemma QuitKeepsInv(s: Sys, a: Action, s': Sys, cfg: Config)
    requires Inv(s, cfg) && Next(s, a, s', cfg) && (a.SendClose? || a.Stop?)
    ensures Inv(s', cfg)
  {
  }

  lemma ReceiveKeepsInv(s: Sys, grant: Request, s': Sys, cfg: Config)
    requires ValidConfig(cfg) && Inv(s, cfg) && Next(s, Receive(grant), s', cfg)
    ensures Inv(s', cfg)
  {
  }

  lemma NextKeepsInv(s: Sys, a: Action, s': Sys, cfg: Config)
    requires ValidConfig(cfg) && ReserveCoversRounding(cfg) && Inv(s, cfg)
    requires Next(s, a, s', cfg)
    ensures Inv(s', cfg)
  {
    match a
    case RedisExec(r, cell', granted) => ExecKeepsInv(s, r, cell', granted, s', cfg);
    case Ask(_, _) => AskKeepsInv(s, a, s', cfg);
    case SendRenew(_) => AskKeepsInv(s, a, s', cfg);
    case SendClose(_) => QuitKeepsInv(s, a, s', cfg);
    case Stop(_) => QuitKeepsInv(s, a, s', cfg);
    case Receive(grant) => ReceiveKeepsInv(s, grant, s', cfg);
    case _ => TimeKeepsInv(s, a, s', cfg);
  }

  lemma {:induction false} RunKeepsInv(states: seq<Sys>, actions: seq<Action>, cfg: Config, i: nat)
    requires ValidConfig(cfg) && ReserveCoversRounding(cfg)
    requires Run(states, actions, cfg) && i < |states|
    ensures Inv(states[i], cfg)
  {
    if i > 0 {
      RunKeepsInv(states, actions, cfg, i - 1);
      NextKeepsInv(states[i - 1], actions[i - 1], states[i], cfg);
    }
  }

  /**
   In every interleaving, at every instant, at most one client is before its local deadline, and
   Redis records that client as the owner of a lease that has not lapsed.
   */
  lemma LeaseIsExclusive(states: seq<Sys>, actions: seq<Action>, cfg: Config, i: nat)
    requires ValidConfig(cfg) && ReserveCoversRounding(cfg)
    requires Run(states, actions, cfg) && i < |states|
    ensures MutualExclusion(states[i])
    ensures forall t :: Believes(states[i], t) ==>
              states[i].cell.Held? && states[i].cell.owner == t && states[i].cell.until > RedisMs(states[i])
  {
    RunKeepsInv(states, actions, cfg, i);
  }

  /** A client that asks, is granted and learns of it, starting from a free or lapsed lease. */
  lemma AskAndHold(s: Sys, token: Token, cfg: Config) returns (asked: Sys, granted: Sys, holding: Sys, actions: seq<Action>)
    requires ValidConfig(cfg) && cfg.ttl > cfg.reserve && s.requests == {} && s.grants == {} && token !in s.clients
    requires s.cell == Free || (s.cell.Held? && s.cell.until <= RedisMs(s))
    ensures |actions| == 3
    ensures Next(s, actions[0], asked, cfg) && Next(asked, actions[1], granted, cfg) && Next(granted, actions[2], holding, cfg)
    ensures holding == s.(cell := Held(token, RedisMs(s) + LeaseMs(cfg)), clients := s.clients[token := Client(0, Holding(Deadline(cfg, s.now)))])
  {
    var request := Request(ClaimKind, token, s.now);
    var cell := Held(token, RedisMs(s) + LeaseMs(cfg));
    asked := s.(clients := s.clients[token := Client(0, Asking)], requests := {request});
    granted := asked.(cell := cell, requests := {}, grants := {request});
    holding := granted.(clients := s.clients[token := Client(0, Holding(Deadline(cfg, s.now)))], grants := {});
    actions := [Ask(token, 0), RedisExec(request, cell, true), Receive(request)];
    assert asked.requests - {request} == {} && asked.grants + {request} == {request} && granted.grants - {request} == {};
    assert granted.clients[token := Client(0, Holding(Deadline(cfg, s.now)))] == holding.clients;
  }

  ghost predicate Reaches(states: seq<Sys>, actions: seq<Action>, cfg: Config, s: Sys) {
    Run(states, actions, cfg) && states[|actions|] == s
  }

  lemma RunThen(states: seq<Sys>, actions: seq<Action>, cfg: Config, s: Sys, a: Action, s': Sys)
    requires Reaches(states, actions, cfg, s) && Next(s, a, s', cfg)
    ensures Reaches(states + [s'], actions + [a], cfg, s')
  {
    var more, next := states + [s'], actions + [a];
    forall i | 0 <= i < |next| ensures Next(more[i], next[i], more[i + 1], cfg) {
      if i < |actions| {
        assert more[i] == states[i] && next[i] == actions[i] && more[i + 1] == states[i + 1];
      }
    }
  }

  lemma RunToHolding(states: seq<Sys>, actions: seq<Action>, cfg: Config, s: Sys, token: Token, s': Sys)
    returns (states': seq<Sys>, actions': seq<Action>)
    requires ValidConfig(cfg) && cfg.ttl > cfg.reserve && s.requests == {} && s.grants == {} && token !in s.clients
    requires s.cell == Free || (s.cell.Held? && s.cell.until <= RedisMs(s))
    requires s' == s.(cell := Held(token, RedisMs(s) + LeaseMs(cfg)), clients := s.clients[token := Client(0, Holding(Deadline(cfg, s.now)))])
    requires Reaches(states, actions, cfg, s)
    ensures Reaches(states', actions', cfg, s')
  {
    var asked, granted, holding, steps := AskAndHold(s, token, cfg);
    RunThen(states, actions, cfg, s, steps[0], asked);
    RunThen(states + [asked], actions + [steps[0]], cfg, asked, steps[1], granted);
    RunThen(states + [asked] + [granted], actions + [steps[0]] + [steps[1]], cfg, granted, steps[2], holding);
    states', actions' := states + [asked] + [granted] + [holding], actions + [steps[0]] + [steps[1]] + [steps[2]];
  }

  /** With a smaller reserve some run breaks exclusion, so the condition is exact. */
  lemma SmallReserveBreaksExclusion(cfg: Config) returns (states: seq<Sys>, actions: seq<Action>)
    requires ValidConfig(cfg) && !ReserveCoversRounding(cfg)
    ensures Run(states, actions, cfg)
    ensures exists i :: 0 <= i < |states| && !MutualExclusion(states[i])
  {
    var lease := LeaseMs(cfg);
    var start := Sys(MS - 1, 0, Free, map[], {}, {});
    var first := start.(cell := Held(0, lease), clients := map[0 := Client(0, Holding(Deadline(cfg, MS - 1)))]);
    states, actions := RunToHolding([start], [], cfg, start, 0, first);
    var later := first.(now := lease * MS);
    RunThen(states, actions, cfg, first, Tick(lease * MS - (MS - 1)), later);
    var both := later.(cell := Held(1, lease + lease), clients := later.clients[1 := Client(0, Holding(Deadline(cfg, lease * MS)))]);
    states, actions := RunToHolding(states + [later], actions + [Tick(lease * MS - (MS - 1))], cfg, later, 1, both);
    assert Believes(both, 0) && Believes(both, 1);
    assert !MutualExclusion(states[|actions|]);
  }

  // ---- The execution record under this protocol ---------------------------------------------

  function ExecutionCell(rec: Option<E.Record>): Cell {
    match rec
    case None => Free
    case Some(r) => if r.state.Running? then Held(r.owner, r.state.leaseUntil) else Closed
  }

  predicate ExecutionRecordInv(rec: Option<E.Record>, c: E.Claim) {
    rec.Some? ==>
      && E.SameIdentity(rec.value, c)
      && (rec.value.state.Running? ==> rec.value.state.leaseUntil <= rec.value.expireAt)
  }

  /** The record changes only through the claim, renew, complete and release scripts and key expiry. */
  ghost predicate ExecutionScript(rec: Option<E.Record>, a: Action, now: int, c: E.Claim, t: E.Timings,
                                  rec': Option<E.Record>) {
    match a
    case RedisExec(r, cell', granted) =>
      (match r.kind
       case ClaimKind =>
         var (after, reply) := E.ClaimStep(rec, c, r.token, now, t);
         rec' == after && granted == reply.Acquired?
       case RenewKind =>
         var (after, reply) := E.RenewStep(rec, c, r.token, now, t);
         rec' == after && granted == reply.Accepted?
       case CloseKind =>
         && !granted
         && (|| rec' == E.ReleaseStep(rec, c, r.token, now).0
             || exists outcome :: rec' == E.CompleteStep(rec, c, r.token, outcome, now, t).0))
    case RedisEvict => rec.Some? && rec.value.expireAt <= now && rec' == None
    case _ => rec' == rec
  }

  ghost predicate ExecutionNext(s: Sys, rec: Option<E.Record>, a: Action, s': Sys, rec': Option<E.Record>,
                                c: E.Claim, t: E.Timings, cfg: Config)
  {
    && Frame(s, a, s', cfg)
    && ExecutionScript(rec, a, RedisMs(s), c, t, rec')
    && s'.cell == ExecutionCell(rec')
  }

  ghost predicate ExecutionRun(states: seq<Sys>, actions: seq<Action>, records: seq<Option<E.Record>>,
                               c: E.Claim, t: E.Timings, cfg: Config)
  {
    && |states| == |records| == |actions| + 1
    && Init(states[0]) && records[0] == None
    && t.leaseMs == LeaseMs(cfg)
    && forall i :: 0 <= i < |actions| ==>
         ExecutionNext(states[i], records[i], actions[i], states[i + 1], records[i + 1], c, t, cfg)
  }

  lemma ExecutionScriptObeysCellRule(s: Sys, a: Action, s': Sys, rec: Option<E.Record>, rec': Option<E.Record>,
                                     c: E.Claim, t: E.Timings, cfg: Config)
    requires E.ValidTimings(t) && t.leaseMs == LeaseMs(cfg) && ExecutionRecordInv(rec, c)
    requires s.cell == ExecutionCell(rec) && ExecutionNext(s, rec, a, s', rec', c, t, cfg)
    ensures Next(s, a, s', cfg) && ExecutionRecordInv(rec', c)
  {
  }

  lemma {:induction false} ExecutionRecordInvHolds(states: seq<Sys>, actions: seq<Action>,
                                                   records: seq<Option<E.Record>>, 
                                                   c: E.Claim, t: E.Timings, cfg: Config, n: nat)
    requires E.ValidTimings(t) && ExecutionRun(states, actions, records, c, t, cfg) && n < |states|
    ensures states[n].cell == ExecutionCell(records[n]) && ExecutionRecordInv(records[n], c)
    ensures n > 0 ==> Next(states[n - 1], actions[n - 1], states[n], cfg)
  {
    if n > 0 {
      ExecutionRecordInvHolds(states, actions, records, c, t, cfg, n - 1);
      ExecutionScriptObeysCellRule(states[n - 1], actions[n - 1], states[n], records[n - 1], records[n], c, t, cfg);
    }
  }

  lemma ExecutionRunObeysProtocol(states: seq<Sys>, actions: seq<Action>, records: seq<Option<E.Record>>,
                                  c: E.Claim, t: E.Timings, cfg: Config)
    requires E.ValidTimings(t) && ExecutionRun(states, actions, records, c, t, cfg)
    ensures Run(states, actions, cfg)
  {
    forall i | 0 <= i < |actions| ensures Next(states[i], actions[i], states[i + 1], cfg) {
      ExecutionRecordInvHolds(states, actions, records, c, t, cfg, i + 1);
    }
  }

  /**
   At most one worker per (execution key, attempt) is before its local lease deadline at any instant
   of any run, and while one is, the record is running, unexpired and owned by it.
   */
  lemma AtMostOneExecutingWorker(states: seq<Sys>, actions: seq<Action>, records: seq<Option<E.Record>>,
                                 c: E.Claim, t: E.Timings, cfg: Config, n: nat)
    requires E.ValidTimings(t) && ValidConfig(cfg) && ReserveCoversRounding(cfg)
    requires ExecutionRun(states, actions, records, c, t, cfg) && n < |states|
    ensures MutualExclusion(states[n])
    ensures forall w :: Believes(states[n], w) ==>
              && records[n].Some? && records[n].value.owner == w
              && records[n].value.state.Running? && records[n].value.state.leaseUntil > RedisMs(states[n])
  {
    ExecutionRunObeysProtocol(states, actions, records, c, t, cfg);
    ExecutionRecordInvHolds(states, actions, records, c, t, cfg, n);
    LeaseIsExclusive(states, actions, cfg, n);
  }

  // ---- The leader record under this protocol ------------------------------------------------

  function LeaderCell(e: L.Election): Cell {
    match e.leader
    case None => Free
    case Some(l) => Held(l.owner, l.expireAt)
  }

  ghost predicate LeaderScript(e: L.Election, a: Action, now: int, ttlMs: int, e': L.Election) {
    match a
    case RedisExec(r, cell', granted) =>
      (match r.kind
       case ClaimKind =>
         var (after, reply) := L.AcquireStep(e, r.token, now, ttlMs);
         e' == after && granted == reply.Acquired?
       case RenewKind =>
         exists fence ::
           var (after, reply) := L.RenewStep(e, r.token, fence, now, ttlMs);
           e' == after && granted == reply.Done?
       case CloseKind =>
         !granted && exists fence :: e' == L.RelinquishStep(e, r.token, fence, now).0)
    case RedisEvict => e.leader.Some? && e.leader.value.expireAt <= now && e' == e.(leader := None)
    case _ => e' == e
  }

  ghost predicate LeaderNext(s: Sys, e: L.Election, a: Action, s': Sys, e': L.Election, cfg: Config) {
    && Frame(s, a, s', cfg)
    && LeaderScript(e, a, RedisMs(s), LeaseMs(cfg), e')
    && s'.cell == LeaderCell(e')
  }

  ghost predicate LeaderRun(states: seq<Sys>, actions: seq<Action>, elections: seq<L.Election>, cfg: Config) {
    && |states| == |elections| == |actions| + 1
    && Init(states[0]) && elections[0] == L.Election(None, 0)
    && forall i :: 0 <= i < |actions| ==>
         LeaderNext(states[i], elections[i], actions[i], states[i + 1], elections[i + 1], cfg)
  }

  lemma LeaderScriptObeysCellRule(s: Sys, e: L.Election, a: Action, s': Sys, e': L.Election, cfg: Config)
    requires s.cell == LeaderCell(e) && LeaderNext(s, e, a, s', e', cfg)
    ensures Next(s, a, s', cfg)
  {
  }

  lemma LeaderRunObeysProtocol(states: seq<Sys>, actions: seq<Action>, elections: seq<L.Election>, cfg: Config)
    requires LeaderRun(states, actions, elections, cfg)
    ensures Run(states, actions, cfg)
    ensures forall i :: 0 <= i < |states| ==> states[i].cell == LeaderCell(elections[i])
  {
    forall i | 0 <= i < |states| ensures states[i].cell == LeaderCell(elections[i]) {
      if i > 0 {
        assert LeaderNext(states[i - 1], elections[i - 1], actions[i - 1], states[i], elections[i], cfg);
      }
    }
    forall i | 0 <= i < |actions| ensures Next(states[i], actions[i], states[i + 1], cfg) {
      LeaderScriptObeysCellRule(states[i], elections[i], actions[i], states[i + 1], elections[i + 1], cfg);
    }
  }

  /** At most one node believes it is the leader, and Redis agrees with it. */
  lemma AtMostOneLocallyValidLeader(states: seq<Sys>, actions: seq<Action>, elections: seq<L.Election>, cfg: Config,
                                    n: nat)
    requires ValidConfig(cfg) && ReserveCoversRounding(cfg)
    requires LeaderRun(states, actions, elections, cfg) && n < |states|
    ensures MutualExclusion(states[n])
    ensures forall w :: Believes(states[n], w) ==>
              && elections[n].leader.Some? && elections[n].leader.value.owner == w
              && elections[n].leader.value.expireAt > RedisMs(states[n])
  {
    LeaderRunObeysProtocol(states, actions, elections, cfg);
    LeaseIsExclusive(states, actions, cfg, n);
  }
}
