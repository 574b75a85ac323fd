/** What every step of the token machine keeps. */
module TokenInvariant {
  import opened Clock
  import opened Wrappers
  import opened TokenMachine

  // ---------- the shape of a step ----------

  // Histories only grow, and time does not run backwards.
  ghost predicate Grown(s: State, t: State) {
    && s.clock <= t.clock && s.issued <= t.issued && s.log <= t.log && s.returned <= t.returned
    && |s.callers| == |t.callers|
  }

  ghost predicate Grows(s: State, t: State) {
    Grown(s, t) && |t.log| <= |s.log| + 1
  }

  // The cache is left alone and no store is logged.
  ghost predicate Untouched(s: State, t: State) {
    t.token == s.token && t.expiry == s.expiry && forall p :: |s.log| <= p < |t.log| ==> !t.log[p].Stored?
  }

  lemma Growth(cfg: Config, s: State, e: Event, t: State)
    requires Next(cfg, s, e) == Some(t)
    ensures Grows(s, t)
  {
    if e.Step? {
      if InWrite(s.callers[e.i].pc) {
        WriterGrowth(cfg, s, e.i, e.choice, t);
      } else {
        ReaderGrowth(cfg, s, e.i, e.choice, t);
      }
    }
  }

  lemma WriterGrowth(cfg: Config, s: State, i: nat, choice: Choice, t: State)
    requires i < |s.callers| && Act(cfg, s, i, choice) == Some(t) && InWrite(s.callers[i].pc)
    ensures Grows(s, t)
  {
  }

  lemma ReaderGrowth(cfg: Config, s: State, i: nat, choice: Choice, t: State)
    requires i < |s.callers| && Act(cfg, s, i, choice) == Some(t) && !InWrite(s.callers[i].pc)
    ensures Grows(s, t)
  {
  }

  lemma Shape(cfg: Config, s: State, e: Event, t: State)
    requires Next(cfg, s, e) == Some(t)
    ensures e.Advance? ==> t == s.(clock := t.clock)
    ensures !e.Advance? ==> e.i < |s.callers| && t.callers == s.callers[e.i := t.callers[e.i]]
    ensures e.Start? ==> t == s.(callers := t.callers) && s.callers[e.i].pc == Idle && t.callers[e.i].pc == WantRead
  {
  }

  lemma Writers(cfg: Config, s: State, e: Event, t: State)
    requires Next(cfg, s, e) == Some(t) && !Untouched(s, t)
    ensures e.Step? && e.i < |s.callers| && InWrite(s.callers[e.i].pc)
  {
  }

  // ---------- counting callers ----------

  datatype Section = Read | Write

  predicate In(sec: Section, pc: Pc) {
    if sec.Read? then InRead(pc) else InWrite(pc)
  }

  function Count(cs: seq<Caller>, sec: Section): nat {
    if cs == [] then 0
    else Count(cs[..|cs| - 1], sec) + (if In(sec, cs[|cs| - 1].pc) then 1 else 0)
  }

  lemma {:induction false} CountUpdate(cs: seq<Caller>, sec: Section, i: nat, c: Caller)
    requires i < |cs|
    ensures Count(cs[i := c], sec) ==
            Count(cs, sec) - (if In(sec, cs[i].pc) then 1 else 0) + (if In(sec, c.pc) then 1 else 0)
  {
    var last := |cs| - 1;
    if i == last {
      assert cs[i := c][..last] == cs[..last];
    } else {
      assert cs[i := c][..last] == cs[..last][i := c];
      CountUpdate(cs[..last], sec, i, c);
    }
  }

  lemma {:induction false} CountMember(cs: seq<Caller>, sec: Section, i: nat)
    requires i < |cs| && In(sec, cs[i].pc)
    ensures Count(cs, sec) >= 1
  {
    if i < |cs| - 1 {
      CountMember(cs[..|cs| - 1], sec, i);
    }
  }

  lemma {:induction false} CountTwo(cs: seq<Caller>, sec: Section, i: nat, j: nat)
    requires i < j < |cs| && In(sec, cs[i].pc) && In(sec, cs[j].pc)
    ensures Count(cs, sec) >= 2
  {
    if j < |cs| - 1 {
      CountTwo(cs[..|cs| - 1], sec, i, j);
    } else {
      CountMember(cs[..|cs| - 1], sec, i);
    }
  }

  lemma {:induction false} CountNone(cs: seq<Caller>, sec: Section)
    ensures Count(cs, sec) == 0 <==> forall i :: 0 <= i < |cs| ==> !In(sec, cs[i].pc)
  {
    if cs != [] {
      CountNone(cs[..|cs| - 1], sec);
      assert forall i :: 0 <= i < |cs| - 1 ==> cs[..|cs| - 1][i] == cs[i];
    }
  }

  // ---------- the lock ----------

  // The lock's own state is exactly who stands in which section, and never both kinds.
  ghost predicate LockInv(s: State) {
    && s.readers == Count(s.callers, Read)
    && Count(s.callers, Write) == (if s.writer then 1 else 0)
    && (s.writer ==> s.readers == 0)
  }

  ghost predicate Exclusion(cs: seq<Caller>) {
    && (forall i, j :: 0 <= i < |cs| && 0 <= j < |cs| && InWrite(cs[i].pc) && InWrite(cs[j].pc) ==> i == j)
    && (forall i, j :: 0 <= i < |cs| && 0 <= j < |cs| && InWrite(cs[i].pc) ==> !InRead(cs[j].pc))
  }

  lemma LockExcludes(s: State)
    requires LockInv(s)
    ensures Exclusion(s.callers)
    ensures s.writer <==> exists i :: 0 <= i < |s.callers| && InWrite(s.callers[i].pc)
    ensures s.readers > 0 <==> exists i :: 0 <= i < |s.callers| && InRead(s.callers[i].pc)
  {
    CountNone(s.callers, Read);
    CountNone(s.callers, Write);
    forall i, j | 0 <= i < j < |s.callers| && InWrite(s.callers[i].pc)
      ensures !InWrite(s.callers[j].pc)
    {
      if InWrite(s.callers[j].pc) { CountTwo(s.callers, Write, i, j); }
    }
  }

  lemma LockMoves(cfg: Config, s: State, i: nat, choice: Choice, t: State)
    requires i < |s.callers| && Act(cfg, s, i, choice) == Some(t)
    ensures
      var pre, post := s.callers[i].pc, t.callers[i].pc;
      && t.readers - s.readers == (if InRead(post) then 1 else 0) - (if InRead(pre) then 1 else 0)
      && (InWrite(pre) || InWrite(post) || t.writer == s.writer)
      && (InWrite(post) ==> t.writer == (s.writer || !InWrite(pre)))
      && (InWrite(pre) && !InWrite(post) ==> !t.writer)
      && (InRead(post) && !InRead(pre) ==> !s.writer)
      && (InWrite(post) && !InWrite(pre) ==> !s.writer && s.readers == 0 && !InRead(pre))
  {
  }

  lemma LockKept(cfg: Config, s: State, e: Event, t: State)
    requires LockInv(s) && Next(cfg, s, e) == Some(t)
    ensures LockInv(t)
  {
    Shape(cfg, s, e, t);
    if !e.Advance? {
      var was, c := s.callers[e.i].pc, t.callers[e.i];
      CountUpdate(s.callers, Read, e.i, c);
      CountUpdate(s.callers, Write, e.i, c);
      if InRead(was) { CountMember(s.callers, Read, e.i); }
      if InWrite(was) { CountMember(s.callers, Write, e.i); }
      if e.Step? { LockMoves(cfg, s, e.i, e.choice, t); }
    }
  }

  // ---------- the fields, seen by each caller ----------

  ghost predicate GoodReply(s: State, r: Reply) {
    r in s.issued && r.issuedAt <= s.clock
  }

  // Every logged store happened no later than the given time.
  ghost predicate StoredBy(log: seq<Entry>, time: Time) {
    forall p :: 0 <= p < |log| && log[p].Stored? ==> log[p].at <= time
  }

  ghost predicate PcOk(s: State, i: nat, pc: Pc) {
    match pc
    case TokenSeen => s.token != ""
    case ClockRead(now) => s.token != "" && now <= s.clock && StoredBy(s.log, now)
    case HitTested(now) => s.token != "" && now <= s.clock && now < s.expiry && StoredBy(s.log, now)
    case HitRead(token, point) => token == s.token && point < |s.log| && s.log[point].Hit? && s.log[point].token == token && s.log[point].who == i
    case InFlight(r) => GoodReply(s, r)
    case WantWrite(r) => GoodReply(s, r) && r.token != ""
    case Writing(r) => GoodReply(s, r) && r.token != ""
    case TokenWritten(r) => GoodReply(s, r) && r.token != "" && s.token == r.token
    case Stamped(r, at) =>
      && GoodReply(s, r) && r.token != "" && s.token == r.token && r.issuedAt <= at <= s.clock
      && StoredBy(s.log, at)
    case ExpiryWritten(point) =>
      point < |s.log| && s.log[point].Stored? && s.log[point].who == i && s.token == s.log[point].reply.token
    case StoreRead(token, point) =>
      point < |s.log| && s.log[point].Stored? && s.log[point].who == i && token == s.log[point].reply.token
    case _ => true
  }

  // The expiry always belongs to the register; the token does, except inside a write.
  ghost predicate CellInv(cfg: Config, s: State) {
    && s.expiry == Expiry(cfg, Replay(s.log))
    && ((forall i :: 0 <= i < |s.callers| ==> !MidWrite(s.callers[i].pc)) ==> s.token == TokenIn(Replay(s.log)))
    && (forall i :: 0 <= i < |s.callers| ==> PcOk(s, i, s.callers[i].pc))
  }

  // ---------- the log ----------

  ghost predicate LogInv(s: State) {
    && (forall p :: 0 <= p < |s.log| ==> s.log[p].who < |s.callers|)
    && (forall p :: 0 <= p < |s.log| && s.log[p].Stored? ==>
          s.log[p].reply in s.issued && s.log[p].reply.token != "" && s.log[p].reply.issuedAt <= s.log[p].at <= s.clock)
    && (forall p, q :: 0 <= p < q < |s.log| && s.log[p].Stored? && !s.log[q].Failed? ==> s.log[p].at <= s.log[q].at)
  }

  lemma {:induction false} ReplayLast(log: seq<Entry>)
    ensures Replay(log).Empty? <==> forall p :: 0 <= p < |log| ==> !log[p].Stored?
    ensures Replay(log).Holding? ==>
              exists p :: 0 <= p < |log| && log[p].Stored? && log[p].reply == Replay(log).reply && log[p].at == Replay(log).at
                          && forall q :: p < q < |log| ==> !log[q].Stored?
  {
    if log != [] {
      var init, last := log[..|log| - 1], log[|log| - 1];
      ReplayLast(init);
      assert forall p :: 0 <= p < |init| ==> init[p] == log[p];
      if last.Stored? {
        assert log[|log| - 1].Stored?;
      }
    }
  }

  lemma ReplayNext(log: seq<Entry>, e: Entry)
    ensures Replay(log + [e]) == Effect(Replay(log), e)
  {
  }

  // The entry may come next: it is allowed, and so was the miss before it.
  ghost predicate Follows(cfg: Config, log: seq<Entry>, e: Entry) {
    && Allowed(cfg, Replay(log), e)
    && (e.Hit? || (e.miss.point <= |log| && Stale(cfg, Replay(log[..e.miss.point]), e.miss.time)))
  }

  lemma LegalPrefix(cfg: Config, log: seq<Entry>, e: Entry, p: nat)
    requires p < |log| && Allowed(cfg, Replay(log[..p]), log[p]) && Justified(cfg, log, p)
    ensures Allowed(cfg, Replay((log + [e])[..p]), (log + [e])[p]) && Justified(cfg, log + [e], p)
  {
    assert (log + [e])[..p] == log[..p];
    if !log[p].Hit? {
      assert (log + [e])[..log[p].miss.point] == log[..log[p].miss.point];
    }
  }

  lemma LegalLast(cfg: Config, log: seq<Entry>, e: Entry)
    requires Follows(cfg, log, e)
    ensures Allowed(cfg, Replay((log + [e])[..|log|]), (log + [e])[|log|]) && Justified(cfg, log + [e], |log|)
  {
    assert (log + [e])[..|log|] == log;
    if !e.Hit? {
      assert (log + [e])[..e.miss.point] == log[..e.miss.point];
    }
  }

  lemma LegalNext(cfg: Config, log: seq<Entry>, e: Entry)
    requires Legal(cfg, log) && Follows(cfg, log, e)
    ensures Legal(cfg, log + [e])
  {
    forall p | 0 <= p < |log + [e]|
      ensures Allowed(cfg, Replay((log + [e])[..p]), (log + [e])[p]) && Justified(cfg, log + [e], p)
    {
      if p < |log| {
        LegalPrefix(cfg, log, e, p);
      } else {
        LegalLast(cfg, log, e);
      }
    }
  }

  // ---------- the test that sent a caller to the endpoint ----------

  ghost predicate MissOk(cfg: Config, s: State, c: Caller) {
    Refreshing(c.pc) ==>
      && c.begin <= c.miss.point <= |s.log| && c.miss.time <= s.clock
      && Stale(cfg, Replay(s.log[..c.miss.point]), c.miss.time)
  }

  ghost predicate MissInv(cfg: Config, s: State) {
    forall i :: 0 <= i < |s.callers| ==> MissOk(cfg, s, s.callers[i])
  }

  // Whoever waits or fetches keeps the test that sent it there.
  lemma MissShape(cfg: Config, s: State, i: nat, choice: Choice, t: State)
    requires i < |s.callers| == |t.callers| && Act(cfg, s, i, choice) == Some(t)
    ensures t.callers[i].begin == s.callers[i].begin
    ensures Refreshing(t.callers[i].pc) && Refreshing(s.callers[i].pc) ==> t.callers[i].miss == s.callers[i].miss
    ensures Refreshing(t.callers[i].pc) && !Refreshing(s.callers[i].pc) ==>
      var pc := s.callers[i].pc;
      && t.log == s.log && (pc.Reading? || pc.ClockRead?)
      && t.callers[i].miss == Miss(|s.log|, if pc.Reading? then s.clock else pc.now)
      && (if pc.Reading? then s.token == "" else s.expiry <= pc.now)
  {
  }

  lemma MissKeptBy(cfg: Config, s: State, t: State, c: Caller)
    requires MissOk(cfg, s, c) && Grows(s, t)
    ensures MissOk(cfg, t, c)
  {
    if Refreshing(c.pc) {
      assert t.log[..c.miss.point] == s.log[..c.miss.point];
    }
  }

  lemma MoverMissKept(cfg: Config, s: State, i: nat, choice: Choice, t: State)
    requires LockInv(s) && LogInv(s) && CellInv(cfg, s) && Grows(s, t)
    requires i < |s.callers| && Act(cfg, s, i, choice) == Some(t) && MissOk(cfg, s, s.callers[i])
    requires s.callers[i].pc != Idle && s.callers[i].begin <= |s.log|
    ensures MissOk(cfg, t, t.callers[i])
  {
    var c, d := s.callers[i], t.callers[i];
    MissShape(cfg, s, i, choice, t);
    if Refreshing(d.pc) {
      if Refreshing(c.pc) {
        MissKeptBy(cfg, s, t, c);
      } else {
        Consistent(cfg, s);
        TokenMeansStored(cfg, s);
        assert PcOk(s, i, c.pc);
        assert t.log[..d.miss.point] == s.log;
      }
    }
  }

  lemma MissKept(cfg: Config, s: State, e: Event, t: State)
    requires LockInv(s) && LogInv(s) && CellInv(cfg, s) && MissInv(cfg, s) && CallsInv(s)
    requires Next(cfg, s, e) == Some(t)
    ensures MissInv(cfg, t)
  {
    Growth(cfg, s, e, t);
    Shape(cfg, s, e, t);
    forall j | 0 <= j < |t.callers|
      ensures MissOk(cfg, t, t.callers[j])
    {
      assert MissOk(cfg, s, s.callers[j]);
      if e.Advance? || j != e.i {
        MissKeptBy(cfg, s, t, s.callers[j]);
      } else if e.Step? {
        assert CallOk(s, j, s.callers[j]);
        MoverMissKept(cfg, s, j, e.choice, t);
      }
    }
  }

  lemma TokenMeansStored(cfg: Config, s: State)
    requires LogInv(s) && CellInv(cfg, s)
    ensures s.token == "" ==> Replay(s.log).Empty?
    ensures Replay(s.log).Holding? ==> Replay(s.log).reply.token != ""
  {
    ReplayLast(s.log);
  }

  // Inside the read section nobody is between the two writes.
  lemma Consistent(cfg: Config, s: State)
    requires LockInv(s) && CellInv(cfg, s)
    ensures !s.writer ==> s.token == TokenIn(Replay(s.log))
    ensures forall i :: 0 <= i < |s.callers| && InRead(s.callers[i].pc) ==> !s.writer
    ensures forall i :: 0 <= i < |s.callers| && InWrite(s.callers[i].pc) ==> s.writer
  {
    LockExcludes(s);
  }

  lemma EntryFits(cfg: Config, s: State, i: nat, choice: Choice, t: State)
    requires LockInv(s) && LogInv(s) && CellInv(cfg, s) && MissInv(cfg, s)
    requires i < |s.callers| && Act(cfg, s, i, choice) == Some(t) && |t.log| > |s.log|
    ensures var x := t.log[|s.log|];
      && x.who == i && Follows(cfg, s.log, x)
      && (!x.Failed? ==> StoredBy(s.log, x.at))
      && (x.Stored? ==> x.reply in s.issued && x.reply.token != "" && x.reply.issuedAt <= x.at <= s.clock)
  {
    Consistent(cfg, s);
    TokenMeansStored(cfg, s);
    assert PcOk(s, i, s.callers[i].pc) && MissOk(cfg, s, s.callers[i]);
  }

  lemma LogExtended(s: State, t: State, x: Entry)
    requires LogInv(s) && Grows(s, t) && t.log == s.log + [x] && x.who < |s.callers|
    requires !x.Failed? ==> StoredBy(s.log, x.at)
    requires x.Stored? ==> x.reply in s.issued && x.reply.token != "" && x.reply.issuedAt <= x.at <= s.clock
    ensures LogInv(t)
  {
  }

  lemma LogKept(cfg: Config, s: State, e: Event, t: State)
    requires LockInv(s) && LogInv(s) && CellInv(cfg, s) && MissInv(cfg, s) && Next(cfg, s, e) == Some(t)
    ensures LogInv(t) && (Legal(cfg, s.log) ==> Legal(cfg, t.log))
  {
    Growth(cfg, s, e, t);
    if |t.log| > |s.log| {
      var x := t.log[|s.log|];
      EntryFits(cfg, s, e.i, e.choice, t);
      assert t.log == s.log + [x];
      LogExtended(s, t, x);
      if Legal(cfg, s.log) { LegalNext(cfg, s.log, x); }
    } else {
      assert t.log == s.log;
    }
  }

  lemma OthersKept(cfg: Config, s: State, e: Event, t: State, j: nat)
    requires Exclusion(s.callers) && Next(cfg, s, e) == Some(t)
    requires j < |s.callers| && (e.Advance? || j != e.i) && PcOk(s, j, s.callers[j].pc)
    ensures t.callers[j] == s.callers[j] && PcOk(t, j, t.callers[j].pc)
  {
    Growth(cfg, s, e, t);
    Shape(cfg, s, e, t);
    if !Untouched(s, t) { Writers(cfg, s, e, t); }
  }

  lemma MoverKept(cfg: Config, s: State, i: nat, choice: Choice, t: State)
    requires LogInv(s) && i < |s.callers| && Act(cfg, s, i, choice) == Some(t)
    requires PcOk(s, i, s.callers[i].pc)
    ensures PcOk(t, i, t.callers[i].pc)
  {
    if InWrite(s.callers[i].pc) {
      WriterMoverKept(cfg, s, i, choice, t);
    } else {
      ReaderMoverKept(cfg, s, i, choice, t);
    }
  }

  lemma ReaderMoverKept(cfg: Config, s: State, i: nat, choice: Choice, t: State)
    requires LogInv(s) && i < |s.callers| && Act(cfg, s, i, choice) == Some(t)
    requires PcOk(s, i, s.callers[i].pc) && !InWrite(s.callers[i].pc)
    ensures PcOk(t, i, t.callers[i].pc)
  {
  }

  lemma WriterMoverKept(cfg: Config, s: State, i: nat, choice: Choice, t: State)
    requires LogInv(s) && i < |s.callers| && Act(cfg, s, i, choice) == Some(t)
    requires PcOk(s, i, s.callers[i].pc) && InWrite(s.callers[i].pc)
    ensures PcOk(t, i, t.callers[i].pc)
  {
  }

  lemma CellKept(cfg: Config, s: State, e: Event, t: State)
    requires LockInv(s) && LogInv(s) && CellInv(cfg, s) && Next(cfg, s, e) == Some(t)
    ensures CellInv(cfg, t)
  {
    LockExcludes(s);
    Shape(cfg, s, e, t);
    forall j | 0 <= j < |t.callers|
      ensures PcOk(t, j, t.callers[j].pc)
    {
      if e.Advance? || j != e.i {
        OthersKept(cfg, s, e, t, j);
      } else if e.Step? {
        MoverKept(cfg, s, j, e.choice, t);
      }
    }
    RegisterKept(cfg, s, e, t);
  }

  // The only step that logs a store or moves the expiry.
  lemma StoreShape(cfg: Config, s: State, e: Event, t: State)
    requires Next(cfg, s, e) == Some(t)
    requires t.expiry != s.expiry || exists p :: |s.log| <= p < |t.log| && t.log[p].Stored?
    ensures e.Step? && e.i < |s.callers| && s.callers[e.i].pc.Stamped?
    ensures var pc := s.callers[e.i].pc;
      && t.log == s.log + [Stored(e.i, pc.reply, pc.at, s.callers[e.i].miss)] && t.expiry == pc.at + Lifetime(cfg, pc.reply)
      && t.token == s.token
  {
  }

  // The token moves only into the middle of a write, and a write ends only by a store.
  lemma TokenShape(cfg: Config, s: State, e: Event, t: State)
    requires Next(cfg, s, e) == Some(t)
    ensures t.token != s.token ==> e.Step? && e.i < |t.callers| && MidWrite(t.callers[e.i].pc)
    ensures e.Step? && e.i < |s.callers| && e.i < |t.callers| && MidWrite(s.callers[e.i].pc) ==>
              MidWrite(t.callers[e.i].pc) || exists p :: |s.log| <= p < |t.log| && t.log[p].Stored?
  {
    if e.Step? && e.i < |s.callers| && s.callers[e.i].pc.Stamped? {
      assert t.log[|s.log|].Stored?;
    }
  }

  lemma ReplaySame(s: State, t: State)
    requires Grows(s, t) && forall p :: |s.log| <= p < |t.log| ==> !t.log[p].Stored?
    ensures Replay(t.log) == Replay(s.log)
  {
    if |t.log| > |s.log| {
      assert t.log == s.log + [t.log[|s.log|]];
      ReplayNext(s.log, t.log[|s.log|]);
    } else {
      assert t.log == s.log;
    }
  }

  lemma ReplayStored(cfg: Config, s: State, t: State, i: nat, r: Reply, at: Time, miss: Miss)
    requires t.log == s.log + [Stored(i, r, at, miss)] && t.expiry == at + Lifetime(cfg, r) && t.token == r.token
    ensures t.expiry == Expiry(cfg, Replay(t.log)) && t.token == TokenIn(Replay(t.log))
  {
    ReplayNext(s.log, Stored(i, r, at, miss));
  }

  lemma StoreKept(cfg: Config, s: State, e: Event, t: State)
    requires CellInv(cfg, s) && Next(cfg, s, e) == Some(t)
    requires t.expiry != s.expiry || exists p :: |s.log| <= p < |t.log| && t.log[p].Stored?
    ensures t.expiry == Expiry(cfg, Replay(t.log)) && t.token == TokenIn(Replay(t.log))
  {
    StoreShape(cfg, s, e, t);
    var c := s.callers[e.i];
    assert PcOk(s, e.i, c.pc);
    ReplayStored(cfg, s, t, e.i, c.pc.reply, c.pc.at, c.miss);
  }

  lemma RegisterKept(cfg: Config, s: State, e: Event, t: State)
    requires CellInv(cfg, s) && Next(cfg, s, e) == Some(t)
    ensures t.expiry == Expiry(cfg, Replay(t.log))
    ensures (forall i :: 0 <= i < |t.callers| ==> !MidWrite(t.callers[i].pc)) ==> t.token == TokenIn(Replay(t.log))
  {
    if t.expiry != s.expiry || exists p :: |s.log| <= p < |t.log| && t.log[p].Stored? {
      StoreKept(cfg, s, e, t);
    } else {
      Growth(cfg, s, e, t);
      Shape(cfg, s, e, t);
      TokenShape(cfg, s, e, t);
      ReplaySame(s, t);
      SettledBefore(s, e, t);
    }
  }

  lemma SettledBefore(s: State, e: Event, t: State)
    requires |s.callers| == |t.callers| && (e.Advance? ==> t.callers == s.callers)
    requires !e.Advance? ==> e.i < |s.callers| && t.callers == s.callers[e.i := t.callers[e.i]]
    requires e.Step? && MidWrite(s.callers[e.i].pc) ==> MidWrite(t.callers[e.i].pc)
    requires e.Start? ==> s.callers[e.i].pc == Idle
    ensures (forall i :: 0 <= i < |t.callers| ==> !MidWrite(t.callers[i].pc)) ==>
            (forall i :: 0 <= i < |s.callers| ==> !MidWrite(s.callers[i].pc))
  {
    forall i | 0 <= i < |s.callers| && MidWrite(s.callers[i].pc)
      ensures MidWrite(t.callers[i].pc)
    {
    }
  }

  // ---------- calls and their places in the log ----------

  function PointOf(pc: Pc): nat
    requires Pointed(pc)
  {
    pc.point
  }

  // A call that missed tested the cache after it began.
  predicate TestedSince(e: Entry, begin: nat) {
    e.Hit? || begin <= e.miss.point
  }

  // Everything this caller did before, and everything that returned before its call
  // began, has its place in the log before the call began.
  ghost predicate CallOk(s: State, i: nat, c: Caller) {
    c.pc != Idle ==>
      && c.begin <= |s.log| && c.before <= |s.returned|
      && (forall a :: 0 <= a < c.before ==> s.returned[a].point < c.begin)
      && (forall a :: 0 <= a < |s.returned| && s.returned[a].who == i ==> s.returned[a].point < c.begin)
      && (Pointed(c.pc) ==> c.begin <= PointOf(c.pc) < |s.log| && TestedSince(s.log[PointOf(c.pc)], c.begin))
  }

  ghost predicate ReturnOk(s: State, a: nat)
    requires a < |s.returned|
  {
    var r := s.returned[a];
    && r.begin <= r.point < |s.log| && s.log[r.point].who == r.who && r.result == Outcome(s.log[r.point])
    && r.before <= a && TestedSince(s.log[r.point], r.begin)
    && (forall b :: 0 <= b < r.before ==> s.returned[b].point < r.begin)
    && (forall b :: 0 <= b < a && s.returned[b].who == r.who ==> s.returned[b].point < r.begin)
  }

  ghost predicate Done(s: State, p: nat) {
    exists a :: 0 <= a < |s.returned| && s.returned[a].point == p
  }

  ghost predicate Pending(s: State, p: nat) {
    exists i :: 0 <= i < |s.callers| && Pointed(s.callers[i].pc) && PointOf(s.callers[i].pc) == p
  }

  ghost predicate CallsInv(s: State) {
    && (forall i :: 0 <= i < |s.callers| ==> CallOk(s, i, s.callers[i]))
    && (forall a :: 0 <= a < |s.returned| ==> ReturnOk(s, a))
    && (forall p :: 0 <= p < |s.log| ==> Done(s, p) || Pending(s, p))
  }

  // The entry carries the test the caller was sent off by.
  predicate EntryOf(c: Caller, e: Entry) {
    e.Hit? || (Refreshing(c.pc) && e.miss == c.miss)
  }

  // A step either keeps its call open, or closes it with the place it had or has just taken.
  ghost predicate CallStep(s: State, i: nat, t: State)
    requires i < |s.callers| == |t.callers|
  {
    var c, d := s.callers[i], t.callers[i];
    && c.pc != Idle
    && (if d.pc == Idle
        then
          && |t.returned| == |s.returned| + 1
          && (var r := t.returned[|s.returned|];
              && r.who == i && r.begin == c.begin && r.before == c.before
              && r.point == (if Pointed(c.pc) then PointOf(c.pc) else |s.log|) < |t.log|
              && t.log[r.point].who == i && r.result == Outcome(t.log[r.point])
              && (Pointed(c.pc) || EntryOf(c, t.log[r.point]))
              && |t.log| == |s.log| + (if Pointed(c.pc) then 0 else 1))
        else
          && t.returned == s.returned && d.begin == c.begin && d.before == c.before
          && (Pointed(c.pc) ==> Pointed(d.pc) && PointOf(d.pc) == PointOf(c.pc) && |t.log| == |s.log|)
          && (!Pointed(c.pc) && Pointed(d.pc) ==> PointOf(d.pc) == |s.log| < |t.log| && EntryOf(c, t.log[|s.log|]))
          && (!Pointed(d.pc) ==> |t.log| == |s.log|))
  }

  lemma CallShape(cfg: Config, s: State, i: nat, choice: Choice, t: State)
    requires i < |s.callers| && Act(cfg, s, i, choice) == Some(t)
    requires PcOk(s, i, s.callers[i].pc)
    ensures |t.callers| == |s.callers| && CallStep(s, i, t)
  {
    if InWrite(s.callers[i].pc) {
      WriterCallShape(cfg, s, i, choice, t);
    } else {
      ReaderCallShape(cfg, s, i, choice, t);
    }
  }

  lemma ReaderCallShape(cfg: Config, s: State, i: nat, choice: Choice, t: State)
    requires i < |s.callers| && Act(cfg, s, i, choice) == Some(t)
    requires PcOk(s, i, s.callers[i].pc) && !InWrite(s.callers[i].pc)
    ensures |t.callers| == |s.callers| && CallStep(s, i, t)
  {
  }

  lemma WriterCallShape(cfg: Config, s: State, i: nat, choice: Choice, t: State)
    requires i < |s.callers| && Act(cfg, s, i, choice) == Some(t)
    requires PcOk(s, i, s.callers[i].pc) && InWrite(s.callers[i].pc)
    ensures |t.callers| == |s.callers| && CallStep(s, i, t)
  {
  }

  lemma CallsStepped(s: State, i: nat, t: State)
    requires i < |s.callers| && CallsInv(s) && Grows(s, t)
    requires t.callers == s.callers[i := t.callers[i]] && CallStep(s, i, t)
    requires Refreshing(s.callers[i].pc) ==> s.callers[i].begin <= s.callers[i].miss.point
    ensures CallsInv(t)
  {
    assert CallOk(s, i, s.callers[i]);
    forall j | 0 <= j < |t.callers|
      ensures CallOk(t, j, t.callers[j])
    {
      assert CallOk(s, j, s.callers[j]);
    }
    forall a | 0 <= a < |t.returned|
      ensures ReturnOk(t, a)
    {
      assert a < |s.returned| ==> ReturnOk(s, a);
    }
    forall p | 0 <= p < |t.log|
      ensures Done(t, p) || Pending(t, p)
    {
      PlaceKept(s, i, t, p);
    }
  }

  lemma PlaceKept(s: State, i: nat, t: State, p: nat)
    requires i < |s.callers| && Grows(s, t) && p < |t.log|
    requires t.callers == s.callers[i := t.callers[i]] && CallStep(s, i, t)
    requires p < |s.log| ==> Done(s, p) || Pending(s, p)
    ensures Done(t, p) || Pending(t, p)
  {
    if p < |s.log| && Done(s, p) {
      var a :| 0 <= a < |s.returned| && s.returned[a].point == p;
      assert t.returned[a].point == p;
    } else {
      var j := i;
      if p < |s.log| {
        j :| 0 <= j < |s.callers| && Pointed(s.callers[j].pc) && PointOf(s.callers[j].pc) == p;
      }
      if j == i && t.callers[i].pc == Idle {
        assert t.returned[|s.returned|].point == p;
      } else {
        assert Pointed(t.callers[j].pc) && PointOf(t.callers[j].pc) == p;
      }
    }
  }

  // Time passing and calls beginning take nothing from the log.
  lemma CallsBegun(s: State, t: State)
    requires CallsInv(s) && t.log == s.log && t.returned == s.returned && |t.callers| == |s.callers|
    requires forall j :: 0 <= j < |s.callers| ==>
      t.callers[j] == s.callers[j] || (s.callers[j].pc == Idle && t.callers[j] == Caller(WantRead, |s.log|, |s.returned|, s.callers[j].miss))
    ensures CallsInv(t)
  {
    forall a | 0 <= a < |s.returned|
      ensures s.returned[a].point < |s.log|
    {
      assert ReturnOk(s, a);
    }
    forall j | 0 <= j < |t.callers|
      ensures CallOk(t, j, t.callers[j])
    {
      assert CallOk(s, j, s.callers[j]);
    }
    forall a | 0 <= a < |t.returned|
      ensures ReturnOk(t, a)
    {
      assert ReturnOk(s, a);
    }
    forall p | 0 <= p < |t.log|
      ensures Done(t, p) || Pending(t, p)
    {
      if Done(s, p) {
        var a :| 0 <= a < |s.returned| && s.returned[a].point == p;
        assert t.returned[a].point == p;
      } else {
        var j :| 0 <= j < |s.callers| && Pointed(s.callers[j].pc) && PointOf(s.callers[j].pc) == p;
        assert t.callers[j] == s.callers[j];
      }
    }
  }

  lemma CallsKept(cfg: Config, s: State, e: Event, t: State)
    requires CellInv(cfg, s) && CallsInv(s) && MissInv(cfg, s) && Next(cfg, s, e) == Some(t)
    ensures CallsInv(t)
  {
    Shape(cfg, s, e, t);
    if e.Step? {
      assert MissOk(cfg, s, s.callers[e.i]);
      Growth(cfg, s, e, t);
      CallShape(cfg, s, e.i, e.choice, t);
      CallsStepped(s, e.i, t);
    } else {
      CallsBegun(s, t);
    }
  }

  // ---------- every reachable state ----------

  ghost predicate Inv(cfg: Config, s: State) {
    LockInv(s) && Legal(cfg, s.log) && LogInv(s) && CellInv(cfg, s) && MissInv(cfg, s) && CallsInv(s)
  }

  lemma {:induction false} CountIdle(n: nat, sec: Section)
    ensures Count(seq(n, _ => Caller(Idle, 0, 0, Miss(0, 0))), sec) == 0
  {
    CountNone(seq(n, _ => Caller(Idle, 0, 0, Miss(0, 0))), sec);
  }

  lemma InitInv(cfg: Config, n: nat, clock: Time)
    ensures Inv(cfg, Init(n, clock))
  {
    CountIdle(n, Read);
    CountIdle(n, Write);
  }

  lemma InvKept(cfg: Config, s: State, e: Event, t: State)
    requires Inv(cfg, s) && Next(cfg, s, e) == Some(t)
    ensures Inv(cfg, t)
  {
    LockKept(cfg, s, e, t);
    LogKept(cfg, s, e, t);
    CellKept(cfg, s, e, t);
    MissKept(cfg, s, e, t);
    CallsKept(cfg, s, e, t);
  }

  lemma {:induction false} RunKeeps(cfg: Config, s: State, es: seq<Event>, t: State)
    requires Inv(cfg, s) && Run(cfg, s, es) == Some(t)
    ensures Inv(cfg, t) && Grown(s, t)
  {
    if es != [] {
      var m := Run(cfg, s, es[..|es| - 1]).value;
      RunKeeps(cfg, s, es[..|es| - 1], m);
      InvKept(cfg, m, es[|es| - 1], t);
      Growth(cfg, m, es[|es| - 1], t);
    }
  }

  lemma ReachableInv(cfg: Config, s: State)
    requires Reachable(cfg, s)
    ensures Inv(cfg, s)
  {
    var n: nat, clock: Time, es :| Run(cfg, Init(n, clock), es) == Some(s);
    InitInv(cfg, n, clock);
    RunKeeps(cfg, Init(n, clock), es, s);
  }
}
