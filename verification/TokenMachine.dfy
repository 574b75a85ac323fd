/**
 The shared token cache of transaction/auth_acquirer.go as a step machine.

 Any number of callers run Acquire on one object at once, any number of times each.
 Every access to the lock, to the clock and to the fields `token` and `expiry` is a
 step of its own, so atomicity is something to be proved and not something assumed.
 */
module TokenMachine {
  import opened Clock
  import opened Wrappers

  const SCHEME := "Bearer"

  datatype Config = Config(buffer: int)

  // What the token endpoint answered, stamped with the instant at which it did.
  datatype Reply = Reply(token: string, expiresIn: int, issuedAt: Time)

  /** The value of a product of two 64-bit integers, as two's complement arithmetic leaves it. */
  function Wrap64(x: int): int {
    (x + 0x8000_0000_0000_0000) % 0x1_0000_0000_0000_0000 - 0x8000_0000_0000_0000
  }

  /** Seconds as nanoseconds. */
  function Seconds(n: int): int {
    n * 1_000_000_000
  }

  /** How long after it is stored the reply is served from the cache. */
  function Lifetime(cfg: Config, r: Reply): int {
    if r.expiresIn > 0 then Wrap64(Seconds(r.expiresIn)) - cfg.buffer else cfg.buffer
  }

  function BearerHeader(token: string): string {
    SCHEME + " " + token
  }

  // ---------- the sequential register ----------

  // The cache as one value: nothing yet, or a reply together with the time it was stored.
  datatype Register = Empty | Holding(reply: Reply, at: Time)

  // The test of the cache that sent a call to the endpoint: how much had been logged, and when.
  datatype Miss = Miss(point: nat, time: Time)

  // What one call does to the register, and what it reports.
  datatype Entry =
    | Hit(who: nat, at: Time, token: string)
    | Stored(who: nat, reply: Reply, at: Time, miss: Miss)
    | Failed(who: nat, miss: Miss)

  function TokenIn(r: Register): string {
    if r.Empty? then "" else r.reply.token
  }

  function Expiry(cfg: Config, r: Register): Time {
    if r.Empty? then 0 else r.at + Lifetime(cfg, r.reply)
  }

  function Effect(r: Register, e: Entry): Register {
    if e.Stored? then Holding(e.reply, e.at) else r
  }

  function Replay(log: seq<Entry>): Register {
    if log == [] then Empty else Effect(Replay(log[..|log| - 1]), log[|log| - 1])
  }

  // A hit returns the token the register holds, and only before that token's expiry.
  predicate Allowed(cfg: Config, r: Register, e: Entry) {
    match e
    case Hit(_, at, token) => r.Holding? && token == r.reply.token && at < Expiry(cfg, r)
    case Stored(_, reply, _, _) => reply.token != ""
    case Failed(_, _) => true
  }

  // Nothing is held, or what is held has expired.
  predicate Stale(cfg: Config, r: Register, time: Time) {
    r.Empty? || Expiry(cfg, r) <= time
  }

  // A call that was not a hit tested the register before, and found it stale.
  ghost predicate Justified(cfg: Config, log: seq<Entry>, p: nat)
    requires p < |log|
  {
    log[p].Hit? || (log[p].miss.point <= p && Stale(cfg, Replay(log[..log[p].miss.point]), log[p].miss.time))
  }

  ghost predicate Legal(cfg: Config, log: seq<Entry>) {
    forall p :: 0 <= p < |log| ==> Allowed(cfg, Replay(log[..p]), log[p]) && Justified(cfg, log, p)
  }

  // What the caller of Acquire gets: a header value, or no token and an error.
  function Outcome(e: Entry): Option<string> {
    match e
    case Hit(_, _, token) => Some(BearerHeader(token))
    case Stored(_, reply, _, _) => Some(BearerHeader(reply.token))
    case Failed(_, _) => None
  }

  // ---------- the concurrent machine ----------

  // Where a caller stands inside Acquire.
  datatype Pc =
    | Idle
    | WantRead
    | Reading                              // read lock held from here ...
    | TokenSeen
    | ClockRead(now: Time)
    | HitTested(now: Time)
    | HitRead(token: string, point: nat)
    | Missed                               // ... to here
    | Fetching
    | InFlight(reply: Reply)
    | WantWrite(reply: Reply)
    | Writing(reply: Reply)                // write lock held from here ...
    | TokenWritten(reply: Reply)
    | Stamped(reply: Reply, at: Time)
    | ExpiryWritten(point: nat)
    | StoreRead(token: string, point: nat) // ... to here

  // `begin` and `before` record how much had been logged, and how many calls had
  // returned, when the caller's current call began; `miss` its last test that failed.
  datatype Caller = Caller(pc: Pc, begin: nat, before: nat, miss: Miss)

  datatype Returned = Returned(who: nat, begin: nat, before: nat, point: nat, result: Option<string>)

  datatype State = State(
    clock: Time,
    token: string, expiry: Time,
    readers: int, writer: bool,
    callers: seq<Caller>,
    issued: set<Reply>, log: seq<Entry>, returned: seq<Returned>)

  // What the world decides when a caller moves; only the fetch listens to it.
  datatype Choice = Quiet | Fail | Issue(token: string, expiresIn: int)

  datatype Event = Advance(delay: nat) | Start(i: nat) | Step(i: nat, choice: Choice)

  predicate InRead(pc: Pc) {
    pc.Reading? || pc.TokenSeen? || pc.ClockRead? || pc.HitTested? || pc.HitRead? || pc.Missed?
  }

  predicate InWrite(pc: Pc) {
    pc.Writing? || pc.TokenWritten? || pc.Stamped? || pc.ExpiryWritten? || pc.StoreRead?
  }

  // Between the two writes the fields do not belong together.
  predicate MidWrite(pc: Pc) {
    pc.TokenWritten? || pc.Stamped?
  }

  // From the failed test until the call's own store.
  predicate Refreshing(pc: Pc) {
    || pc.Missed? || pc.Fetching? || pc.InFlight? || pc.WantWrite?
    || pc.Writing? || pc.TokenWritten? || pc.Stamped?
  }

  // The call has its place in the log but has not returned.
  predicate Pointed(pc: Pc) {
    pc.HitRead? || pc.ExpiryWritten? || pc.StoreRead?
  }

  function Init(n: nat, clock: Time): State {
    State(clock, "", 0, 0, false, seq(n, _ => Caller(Idle, 0, 0, Miss(0, 0))), {}, [], [])
  }

  function MoveTo(s: State, i: nat, pc: Pc): State
    requires i < |s.callers|
  {
    s.(callers := s.callers[i := s.callers[i].(pc := pc)])
  }

  function MissAt(s: State, i: nat, time: Time): State
    requires i < |s.callers|
  {
    s.(callers := s.callers[i := s.callers[i].(pc := Missed, miss := Miss(|s.log|, time))])
  }

  function Return(s: State, i: nat, point: nat, result: Option<string>): State
    requires i < |s.callers|
  {
    MoveTo(s, i, Idle).(
      returned := s.returned + [Returned(i, s.callers[i].begin, s.callers[i].before, point, result)])
  }

  // A failed call ends without touching the cache or the lock.
  function GiveUp(s: State, i: nat): State
    requires i < |s.callers|
  {
    Return(s.(log := s.log + [Failed(i, s.callers[i].miss)]), i, |s.log|, None)
  }

  /** One step of caller i; None when it has to wait or has nothing to do. */
  function Act(cfg: Config, s: State, i: nat, choice: Choice): Option<State>
    requires i < |s.callers|
  {
    match s.callers[i].pc
    case Idle => None
    case WantRead =>
      if s.writer then None else Some(MoveTo(s.(readers := s.readers + 1), i, Reading))
    case Reading => Some(if s.token == "" then MissAt(s, i, s.clock) else MoveTo(s, i, TokenSeen))
    case TokenSeen => Some(MoveTo(s, i, ClockRead(s.clock)))
    case ClockRead(now) => Some(if now < s.expiry then MoveTo(s, i, HitTested(now)) else MissAt(s, i, now))
    case HitTested(now) =>
      Some(MoveTo(s.(log := s.log + [Hit(i, now, s.token)]), i, HitRead(s.token, |s.log|)))
    case HitRead(token, point) =>
      Some(Return(s.(readers := s.readers - 1), i, point, Some(BearerHeader(token))))
    case Missed => Some(MoveTo(s.(readers := s.readers - 1), i, Fetching))
    case Fetching =>
      (match choice
       case Quiet => None
       case Fail => Some(GiveUp(s, i))
       case Issue(token, expiresIn) =>
         var reply := Reply(token, expiresIn, s.clock);
         Some(MoveTo(s.(issued := s.issued + {reply}), i, InFlight(reply))))
    case InFlight(reply) =>
      if choice.Fail? || reply.token == "" then Some(GiveUp(s, i))
      else Some(MoveTo(s, i, WantWrite(reply)))
    case WantWrite(reply) =>
      if s.writer || s.readers != 0 then None
      else Some(MoveTo(s.(writer := true), i, Writing(reply)))
    case Writing(reply) => Some(MoveTo(s.(token := reply.token), i, TokenWritten(reply)))
    case TokenWritten(reply) => Some(MoveTo(s, i, Stamped(reply, s.clock)))
    case Stamped(reply, at) =>
      Some(MoveTo(s.(expiry := at + Lifetime(cfg, reply), log := s.log + [Stored(i, reply, at, s.callers[i].miss)]),
                  i, ExpiryWritten(|s.log|)))
    case ExpiryWritten(point) => Some(MoveTo(s, i, StoreRead(s.token, point)))
    case StoreRead(token, point) =>
      Some(Return(s.(writer := false), i, point, Some(BearerHeader(token))))
  }

  function Next(cfg: Config, s: State, e: Event): Option<State> {
    match e
    case Advance(delay) => Some(s.(clock := s.clock + delay))
    case Start(i) =>
      if i < |s.callers| && s.callers[i].pc.Idle?
      then Some(s.(callers := s.callers[i := Caller(WantRead, |s.log|, |s.returned|, s.callers[i].miss)]))
      else None
    case Step(i, choice) => if i < |s.callers| then Act(cfg, s, i, choice) else None
  }

  /** The state a schedule leads to; None when some event of it was not possible. */
  function Run(cfg: Config, s: State, es: seq<Event>): Option<State> {
    if es == [] then Some(s)
    else match Run(cfg, s, es[..|es| - 1])
         case None => None
         case Some(m) => Next(cfg, m, es[|es| - 1])
  }

  ghost predicate Reachable(cfg: Config, s: State) {
    exists n: nat, clock: Time, es: seq<Event> :: Run(cfg, Init(n, clock), es) == Some(s)
  }

  lemma {:induction false} RunAppend(cfg: Config, s: State, es: seq<Event>, fs: seq<Event>)
    requires Run(cfg, s, es).Some?
    ensures Run(cfg, s, es + fs) == Run(cfg, Run(cfg, s, es).value, fs)
  {
    if fs == [] {
      assert es + fs == es;
    } else {
      var last := |fs| - 1;
      assert (es + fs)[..|es + fs| - 1] == es + fs[..last];
      RunAppend(cfg, s, es, fs[..last]);
    }
  }

  lemma ReachableOnward(cfg: Config, s: State, es: seq<Event>)
    requires Reachable(cfg, s) && Run(cfg, s, es).Some?
    ensures Reachable(cfg, Run(cfg, s, es).value)
  {
    var n: nat, clock: Time, ds :| Run(cfg, Init(n, clock), ds) == Some(s);
    RunAppend(cfg, Init(n, clock), ds, es);
  }
}
