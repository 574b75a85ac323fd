/** The acquirer as one caller sees it, and what relates it to the step machine. */
module TokenAcquirer {
  import opened Clock
  import opened Wrappers
  import opened TokenMachine
  import opened TokenInvariant
  import opened TokenTheorems

  // How the request to the token endpoint ended. Every error before the token is known to
  // be usable is NoReply; a decoded answer may still lack its token.
  datatype Fetch = NoReply | Answered(token: string, expiresIn: int)

  datatype Cell = Cell(token: string, expiry: Time)

  predicate Valid(c: Cell, now: Time) {
    c.token != "" && now < c.expiry
  }

  /** One call on its own: `now` is its first clock reading, `later` the one taken to store. */
  function Call(cfg: Config, c: Cell, now: Time, fetch: Fetch, later: Time): (Cell, Option<string>) {
    if Valid(c, now) then (c, Some(BearerHeader(c.token)))
    else if fetch.NoReply? || fetch.token == "" then (c, None)
    else (Cell(fetch.token, later + Lifetime(cfg, Reply(fetch.token, fetch.expiresIn, later))),
          Some(BearerHeader(fetch.token)))
  }

  // When a token stored at `at` expires: after Buffer where the answer had no ExpiresIn, else
  // Buffer before the end of that many seconds, counted in 64-bit nanoseconds.
  ghost predicate ExpiresAt(cfg: Config, expiresIn: int, at: Time, expiry: Time) {
    && (expiresIn <= 0 ==> expiry == at + cfg.buffer)
    && (0 < expiresIn <= 9223372036 ==> expiry == at + expiresIn * 1_000_000_000 - cfg.buffer)
    && (expiresIn > 0 ==> Int64Of(expiresIn * 1_000_000_000, expiry - at + cfg.buffer))
  }

  /** The three ways a call can end, in plain terms. */
  lemma CallExactly(cfg: Config, c: Cell, now: Time, fetch: Fetch, later: Time)
    ensures var (d, header) := Call(cfg, c, now, fetch, later);
      if c.token != "" && now < c.expiry then d == c && header == Some("Bearer " + c.token)
      else if fetch.Answered? && fetch.token != "" then
        d.token == fetch.token && ExpiresAt(cfg, fetch.expiresIn, later, d.expiry) && header == Some("Bearer " + fetch.token)
      else d == c && header == None
  {
    assert SCHEME + " " == "Bearer ";
    if fetch.Answered? {
      LifetimeExact(cfg, Reply(fetch.token, fetch.expiresIn, later));
    }
  }

  /**
   Two calls on one acquirer: after a call has stored a token, the next one is served from
   the cache, by the same header and whatever the endpoint would say, exactly while the
   token has been held for less than Buffer, or less than ExpiresIn seconds minus Buffer.
   */
  lemma TwoCalls(cfg: Config, c: Cell, now: Time, token: string, expiresIn: int, at: Time, again: Time)
    requires c.token == "" || c.expiry <= now
    requires token != "" && expiresIn <= 9223372036
    ensures var (d, header) := Call(cfg, c, now, Answered(token, expiresIn), at);
      && header == Some("Bearer " + token)
      && forall fetch: Fetch, later: Time ::
           var held := again < at + (if expiresIn <= 0 then cfg.buffer else expiresIn * 1_000_000_000 - cfg.buffer);
           && (held ==> Call(cfg, d, again, fetch, later) == (d, header))
           && (!held && (fetch == NoReply || fetch.token == "") ==> Call(cfg, d, again, fetch, later) == (d, None))
           && (!held && fetch.Answered? && fetch.token != "" ==>
                 Call(cfg, d, again, fetch, later).0.token == fetch.token
                 && Call(cfg, d, again, fetch, later).1 == Some("Bearer " + fetch.token))
  {
    CallExactly(cfg, c, now, Answered(token, expiresIn), at);
    var d := Call(cfg, c, now, Answered(token, expiresIn), at).0;
    forall fetch: Fetch, later: Time {
      CallExactly(cfg, d, again, fetch, later);
    }
  }

  class JwtAcquirer {
    const cfg: Config
    var token: string
    var expiry: Time

    constructor (cfg: Config)
      ensures this.cfg == cfg && Contents() == Cell("", 0)
    {
      this.cfg := cfg;
      token, expiry := "", 0;
    }

    function Contents(): Cell
      reads this
    {
      Cell(token, expiry)
    }

    method Acquire(now: Time, fetch: Fetch, later: Time) returns (header: Option<string>)
      modifies this`token, this`expiry
      ensures (Contents(), header) == Call(cfg, old(Contents()), now, fetch, later)
      ensures old(token != "" && now < expiry) ==>
        token == old(token) && expiry == old(expiry) && header == Some("Bearer " + token)
      ensures old(token == "" || expiry <= now) && (fetch.NoReply? || fetch.token == "") ==>
        token == old(token) && expiry == old(expiry) && header == None
      ensures old(token == "" || expiry <= now) && fetch.Answered? && fetch.token != "" ==>
        token == fetch.token && header == Some("Bearer " + token) && ExpiresAt(cfg, fetch.expiresIn, later, expiry)
    {
      CallExactly(cfg, Contents(), now, fetch, later);
      if token != "" && now < expiry {
        return Some(SCHEME + " " + token);
      }
      if fetch.NoReply? {
        return None;
      }
      if fetch.token == "" {
        return None;
      }
      token := fetch.token;
      if fetch.expiresIn > 0 {
        var expiryTime := later + Wrap64(Seconds(fetch.expiresIn));
        expiry := expiryTime - cfg.buffer;
      } else {
        expiry := later + cfg.buffer;
      }
      header := Some(SCHEME + " " + token);
    }
  }

  // ---------- the call is a legal operation of the register ----------

  function CellOf(cfg: Config, r: Register): Cell {
    Cell(TokenIn(r), Expiry(cfg, r))
  }

  /** Each call does to the cell exactly what one allowed log entry does to the register, and misses only if it is stale. */
  lemma CallIsEntry(cfg: Config, r: Register, who: nat, now: Time, fetch: Fetch, later: Time)
    requires r.Holding? ==> r.reply.token != ""
    ensures exists e: Entry :: e.who == who && Allowed(cfg, r, e) && (e.Hit? || (e.miss.time == now && Stale(cfg, r, now)))
              && Call(cfg, CellOf(cfg, r), now, fetch, later) == (CellOf(cfg, Effect(r, e)), Outcome(e))
  {
    var e := if Valid(CellOf(cfg, r), now) then Hit(who, now, TokenIn(r))
             else if fetch.NoReply? || fetch.token == "" then Failed(who, Miss(0, now))
             else Stored(who, Reply(fetch.token, fetch.expiresIn, later), later, Miss(0, now));
    assert e.who == who && Allowed(cfg, r, e) && (e.Hit? || (e.miss.time == now && Stale(cfg, r, now)))
        && Call(cfg, CellOf(cfg, r), now, fetch, later) == (CellOf(cfg, Effect(r, e)), Outcome(e));
  }

  // ---------- the machine with a single caller moving ----------

  ghost predicate OnlyBy(es: seq<Event>, i: nat) {
    forall k :: 0 <= k < |es| ==> es[k].Advance? || es[k].i == i
  }

  // Where the moving caller stands, relative to the cell it began with.
  ghost predicate SoloPc(cfg: Config, c: Cell, from: Time, m: State, pc: Pc) {
    var missed := !Valid(c, m.clock);
    var same := Cell(m.token, m.expiry) == c;
    match pc
    case Idle => same
    case WantRead => same
    case Reading => same
    case TokenSeen => same && c.token != ""
    case ClockRead(now) => same && c.token != "" && from <= now <= m.clock
    case HitTested(now) => same && from <= now && Valid(c, now)
    case HitRead(token, _) => same && Valid(c, from) && token == c.token
    case Missed => same && missed
    case Fetching => same && missed
    case InFlight(_) => same && missed
    case WantWrite(r) => same && missed && r.token != ""
    case Writing(r) => same && missed && r.token != ""
    case TokenWritten(r) => missed && r.token != "" && m.token == r.token
    case Stamped(r, at) => r.token != "" && m.token == r.token && from <= at <= m.clock && !Valid(c, at)
    case ExpiryWritten(_) => StoredSince(cfg, c, from, m)
    case StoreRead(token, _) => StoredSince(cfg, c, from, m) && token == m.token
  }

  ghost predicate StoredAt(cfg: Config, c: Cell, m: State, r: Reply, at: Time) {
    !Valid(c, at) && r.token != "" && m.token == r.token && m.expiry == at + Lifetime(cfg, r)
  }

  ghost predicate StoredSince(cfg: Config, c: Cell, from: Time, m: State) {
    exists r: Reply, at: Time :: from <= at <= m.clock && StoredAt(cfg, c, m, r, at)
  }

  // The completed call behaves as Call does, for clock readings taken while it ran.
  ghost predicate Explained(cfg: Config, c: Cell, from: Time, m: State, result: Option<string>) {
    exists now: Time, fetch: Fetch, later: Time ::
      from <= now <= later <= m.clock && Call(cfg, c, now, fetch, later) == (Cell(m.token, m.expiry), result)
  }

  ghost predicate Solo(cfg: Config, c: Cell, from: Time, n: nat, i: nat, m: State) {
    && i < |m.callers| && from <= m.clock && n <= |m.returned|
    && (|m.returned| == n ==> SoloPc(cfg, c, from, m, m.callers[i].pc))
    && (|m.returned| == n + 1 && m.callers[i].pc == Idle ==> Explained(cfg, c, from, m, m.returned[n].result))
  }

  lemma ReturnExplained(cfg: Config, c: Cell, from: Time, i: nat, m: State, choice: Choice, t: State)
    requires i < |m.callers| == |t.callers| && from <= m.clock && SoloPc(cfg, c, from, m, m.callers[i].pc)
    requires Act(cfg, m, i, choice) == Some(t) && t.callers[i].pc == Idle && |t.returned| > 0
    ensures Explained(cfg, c, from, t, t.returned[|t.returned| - 1].result)
  {
    var result := t.returned[|t.returned| - 1].result;
    var pc := m.callers[i].pc;
    if pc.HitRead? {
      assert Call(cfg, c, from, NoReply, from) == (Cell(t.token, t.expiry), result);
    } else if pc.StoreRead? {
      var r: Reply, at: Time :| from <= at <= m.clock && StoredAt(cfg, c, m, r, at);
      assert Call(cfg, c, at, Answered(r.token, r.expiresIn), at) == (Cell(t.token, t.expiry), result);
    } else if pc.Fetching? || pc.InFlight? {
      assert Call(cfg, c, t.clock, NoReply, t.clock) == (Cell(t.token, t.expiry), result);
    }
  }

  lemma StoreRemembered(cfg: Config, c: Cell, from: Time, m: State, t: State)
    requires StoredSince(cfg, c, from, m) && m.clock <= t.clock && t.token == m.token && t.expiry == m.expiry
    ensures StoredSince(cfg, c, from, t)
  {
    var r: Reply, at: Time :| from <= at <= m.clock && StoredAt(cfg, c, m, r, at);
    assert StoredAt(cfg, c, t, r, at);
  }

  lemma SoloMoves(cfg: Config, c: Cell, from: Time, i: nat, m: State, choice: Choice, t: State)
    requires i < |m.callers| == |t.callers| && SoloPc(cfg, c, from, m, m.callers[i].pc)
    requires Act(cfg, m, i, choice) == Some(t) && t.callers[i].pc != Idle && from <= m.clock
    ensures SoloPc(cfg, c, from, t, t.callers[i].pc)
  {
    if InWrite(m.callers[i].pc) {
      SoloWrites(cfg, c, from, i, m, choice, t);
    } else {
      SoloReads(cfg, c, from, i, m, choice, t);
    }
  }

  lemma SoloReads(cfg: Config, c: Cell, from: Time, i: nat, m: State, choice: Choice, t: State)
    requires i < |m.callers| == |t.callers| && SoloPc(cfg, c, from, m, m.callers[i].pc) && !InWrite(m.callers[i].pc)
    requires Act(cfg, m, i, choice) == Some(t) && t.callers[i].pc != Idle && from <= m.clock
    ensures SoloPc(cfg, c, from, t, t.callers[i].pc)
  {
  }

  lemma SoloWrites(cfg: Config, c: Cell, from: Time, i: nat, m: State, choice: Choice, t: State)
    requires i < |m.callers| == |t.callers| && SoloPc(cfg, c, from, m, m.callers[i].pc) && InWrite(m.callers[i].pc)
    requires Act(cfg, m, i, choice) == Some(t) && t.callers[i].pc != Idle && from <= m.clock
    ensures SoloPc(cfg, c, from, t, t.callers[i].pc)
  {
    var pc := m.callers[i].pc;
    if pc.Stamped? {
      assert StoredAt(cfg, c, t, pc.reply, pc.at);
    } else if pc.ExpiryWritten? {
      StoreRemembered(cfg, c, from, m, t);
    }
  }

  lemma SoloWaits(cfg: Config, c: Cell, from: Time, m: State, t: State, pc: Pc)
    requires SoloPc(cfg, c, from, m, pc) && m.clock <= t.clock && t.token == m.token && t.expiry == m.expiry
    ensures SoloPc(cfg, c, from, t, pc)
  {
    if pc.ExpiryWritten? || pc.StoreRead? {
      StoreRemembered(cfg, c, from, m, t);
    }
  }

  lemma SoloStep(cfg: Config, c: Cell, from: Time, n: nat, i: nat, m: State, e: Event, t: State)
    requires Solo(cfg, c, from, n, i, m) && Next(cfg, m, e) == Some(t) && (e.Advance? || e.i == i)
    ensures Solo(cfg, c, from, n, i, t)
  {
    Growth(cfg, m, e, t);
    Shape(cfg, m, e, t);
    match e {
      case Advance(_) =>
        if |m.returned| == n { SoloWaits(cfg, c, from, m, t, m.callers[i].pc); }
      case Start(_) =>
      case Step(_, choice) =>
        SoloActs(cfg, c, from, n, i, m, choice, t);
    }
  }

  lemma SoloActs(cfg: Config, c: Cell, from: Time, n: nat, i: nat, m: State, choice: Choice, t: State)
    requires Solo(cfg, c, from, n, i, m) && Act(cfg, m, i, choice) == Some(t)
    requires |t.callers| == |m.callers| && m.clock <= t.clock && m.returned <= t.returned
    ensures Solo(cfg, c, from, n, i, t)
  {
    ReturnsOnce(cfg, m, i, choice, t);
    if |m.returned| == n {
      if t.callers[i].pc == Idle {
        ReturnExplained(cfg, c, from, i, m, choice, t);
      } else {
        SoloMoves(cfg, c, from, i, m, choice, t);
      }
    }
  }

  lemma ReturnsOnce(cfg: Config, m: State, i: nat, choice: Choice, t: State)
    requires i < |m.callers| == |t.callers| && Act(cfg, m, i, choice) == Some(t)
    ensures |t.returned| == |m.returned| + (if t.callers[i].pc == Idle then 1 else 0)
  {
    if InWrite(m.callers[i].pc) {
      ReturnsOnceWriting(cfg, m, i, choice, t);
    }
  }

  lemma ReturnsOnceWriting(cfg: Config, m: State, i: nat, choice: Choice, t: State)
    requires i < |m.callers| == |t.callers| && Act(cfg, m, i, choice) == Some(t) && InWrite(m.callers[i].pc)
    ensures |t.returned| == |m.returned| + (if t.callers[i].pc == Idle then 1 else 0)
  {
  }

  lemma {:induction false} SoloRun(cfg: Config, c: Cell, from: Time, n: nat, i: nat, s: State, es: seq<Event>, t: State)
    requires Solo(cfg, c, from, n, i, s) && Run(cfg, s, es) == Some(t) && OnlyBy(es, i)
    ensures Solo(cfg, c, from, n, i, t)
  {
    if es != [] {
      var m := Run(cfg, s, es[..|es| - 1]).value;
      SoloRun(cfg, c, from, n, i, s, es[..|es| - 1], m);
      SoloStep(cfg, c, from, n, i, m, es[|es| - 1], t);
    }
  }

  /**
   A call during which no other caller moves is a call of JwtAcquirer.Acquire: it leaves
   the fields and returns the result that Call gives for clock readings taken meanwhile.
   */
  lemma UndisturbedCall(cfg: Config, s: State, i: nat, es: seq<Event>, t: State)
    requires i < |s.callers| && s.callers[i].pc == Idle
    requires Run(cfg, s, es) == Some(t) && OnlyBy(es, i)
    requires |t.returned| == |s.returned| + 1 && i < |t.callers| && t.callers[i].pc == Idle
    ensures Explained(cfg, Cell(s.token, s.expiry), s.clock, t, t.returned[|s.returned|].result)
  {
    SoloRun(cfg, Cell(s.token, s.expiry), s.clock, |s.returned|, i, s, es, t);
  }
}
