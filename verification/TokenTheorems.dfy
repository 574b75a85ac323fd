/** What holds of the shared token cache in every run, for any number of callers. */
module TokenTheorems {
  import opened Clock
  import opened Wrappers
  import opened TokenMachine
  import opened TokenInvariant
  import opened TokenRate

  // ---------- linearizability ----------

  // A call has its place in the log: inside its own extent, with its own entry, and after
  // the place of every call that had returned when it began. If it missed, the test that
  // missed lies inside its extent too.
  ghost predicate Placed(s: State, who: nat, begin: nat, before: nat, point: nat) {
    && begin <= point < |s.log| && s.log[point].who == who && TestedSince(s.log[point], begin)
    && before <= |s.returned| && forall a :: 0 <= a < before ==> s.returned[a].point < begin
  }

  /**
   The log is a legal history of the sequential register in which every call has a place of
   its own, whether it has returned or is still on its way out. Calls that do not overlap
   appear in their real order, every returned call reports what its entry says, and no
   entry is without a call.
   */
  lemma Linearizable(cfg: Config, s: State)
    requires Reachable(cfg, s)
    ensures Legal(cfg, s.log)
    ensures forall a :: 0 <= a < |s.returned| ==>
      var r := s.returned[a];
      Placed(s, r.who, r.begin, r.before, r.point) && r.before <= a && r.result == Outcome(s.log[r.point])
    ensures forall i :: 0 <= i < |s.callers| && Pointed(s.callers[i].pc) ==>
      var c := s.callers[i];
      Placed(s, i, c.begin, c.before, PointOf(c.pc))
    ensures forall a, b :: 0 <= a < b < |s.returned| ==> s.returned[a].point != s.returned[b].point
    ensures forall a, i :: 0 <= a < |s.returned| && 0 <= i < |s.callers| && Pointed(s.callers[i].pc) ==>
      s.returned[a].point != PointOf(s.callers[i].pc)
    ensures forall i, j :: 0 <= i < j < |s.callers| && Pointed(s.callers[i].pc) && Pointed(s.callers[j].pc) ==>
      PointOf(s.callers[i].pc) != PointOf(s.callers[j].pc)
    ensures forall p :: 0 <= p < |s.log| ==> Done(s, p) || Pending(s, p)
  {
    ReachableInv(cfg, s);
    ReturnedPlaced(s);
    forall i | 0 <= i < |s.callers| && Pointed(s.callers[i].pc)
      ensures Placed(s, i, s.callers[i].begin, s.callers[i].before, PointOf(s.callers[i].pc))
      ensures forall a :: 0 <= a < |s.returned| ==> s.returned[a].point != PointOf(s.callers[i].pc)
    {
      PendingPlaced(cfg, s, i);
    }
  }

  lemma ReturnedPlaced(s: State)
    requires CallsInv(s)
    ensures forall a :: 0 <= a < |s.returned| ==>
      var r := s.returned[a];
      Placed(s, r.who, r.begin, r.before, r.point) && r.before <= a && r.result == Outcome(s.log[r.point])
    ensures forall a, b :: 0 <= a < b < |s.returned| ==> s.returned[a].point != s.returned[b].point
  {
    forall a | 0 <= a < |s.returned|
      ensures var r := s.returned[a];
        Placed(s, r.who, r.begin, r.before, r.point) && r.before <= a && r.result == Outcome(s.log[r.point])
    {
      assert ReturnOk(s, a);
    }
    forall a, b | 0 <= a < b < |s.returned|
      ensures s.returned[a].point != s.returned[b].point
    {
      assert ReturnOk(s, a) && ReturnOk(s, b);
    }
  }

  lemma PendingPlaced(cfg: Config, s: State, i: nat)
    requires CellInv(cfg, s) && CallsInv(s) && i < |s.callers| && Pointed(s.callers[i].pc)
    ensures Placed(s, i, s.callers[i].begin, s.callers[i].before, PointOf(s.callers[i].pc))
    ensures forall a :: 0 <= a < |s.returned| ==> s.returned[a].point != PointOf(s.callers[i].pc)
  {
    assert CallOk(s, i, s.callers[i]) && PcOk(s, i, s.callers[i].pc);
    forall a | 0 <= a < |s.returned|
      ensures s.returned[a].point != PointOf(s.callers[i].pc)
    {
      assert ReturnOk(s, a);
    }
  }

  // Store q is the last one among the first n entries.
  ghost predicate LastStore(log: seq<Entry>, q: nat, n: nat) {
    q < n <= |log| && log[q].Stored? && forall r :: q < r < n ==> !log[r].Stored?
  }

  // Nothing had been stored by entry n, or what was stored last had expired.
  ghost predicate FoundStale(cfg: Config, log: seq<Entry>, n: nat, time: Time) {
    || (n <= |log| && forall q :: 0 <= q < n ==> !log[q].Stored?)
    || (exists q: nat :: LastStore(log, q, n) && log[q].at + Lifetime(cfg, log[q].reply) <= time)
  }

  lemma StaleMeans(cfg: Config, log: seq<Entry>, n: nat, time: Time)
    requires n <= |log| && Stale(cfg, Replay(log[..n]), time)
    ensures FoundStale(cfg, log, n, time)
  {
    var reg := Replay(log[..n]);
    ReplayLast(log[..n]);
    assert forall q :: 0 <= q < n ==> log[..n][q] == log[q];
    if reg.Holding? {
      var q: nat :| q < n && log[..n][q].Stored? && log[..n][q].reply == reg.reply && log[..n][q].at == reg.at
                    && forall r :: q < r < n ==> !log[..n][r].Stored?;
      assert LastStore(log, q, n);
    }
  }

  /**
   No call goes to the endpoint without need: every call that stored or failed had tested the
   cache before, within its own extent, and had found nothing there or a token past its
   expiry. So has every caller that is on its way to the endpoint or back.
   */
  lemma NoNeedlessFetch(cfg: Config, s: State)
    requires Reachable(cfg, s)
    ensures forall p :: 0 <= p < |s.log| && !s.log[p].Hit? ==>
      s.log[p].miss.point <= p && FoundStale(cfg, s.log, s.log[p].miss.point, s.log[p].miss.time)
    ensures forall i :: 0 <= i < |s.callers| && Refreshing(s.callers[i].pc) ==>
      var c := s.callers[i];
      c.begin <= c.miss.point <= |s.log| && FoundStale(cfg, s.log, c.miss.point, c.miss.time)
  {
    ReachableInv(cfg, s);
    forall p | 0 <= p < |s.log| && !s.log[p].Hit?
      ensures s.log[p].miss.point <= p && FoundStale(cfg, s.log, s.log[p].miss.point, s.log[p].miss.time)
    {
      assert Justified(cfg, s.log, p);
      StaleMeans(cfg, s.log, s.log[p].miss.point, s.log[p].miss.time);
    }
    forall i | 0 <= i < |s.callers| && Refreshing(s.callers[i].pc)
      ensures var c := s.callers[i];
        c.begin <= c.miss.point <= |s.log| && FoundStale(cfg, s.log, c.miss.point, c.miss.time)
    {
      assert MissOk(cfg, s, s.callers[i]);
      StaleMeans(cfg, s.log, s.callers[i].miss.point, s.callers[i].miss.time);
    }
  }

  // ---------- no torn pair ----------

  // The fields hold the pair that store p wrote, or nothing was ever stored.
  ghost predicate PairOf(cfg: Config, log: seq<Entry>, token: string, expiry: Time, p: nat) {
    LastStore(log, p, |log|) && token == log[p].reply.token && expiry == log[p].at + Lifetime(cfg, log[p].reply)
  }

  /** While no writer holds the lock, token and expiry come from one and the same store, the last. */
  lemma NoTornPair(cfg: Config, s: State)
    requires Reachable(cfg, s) && !s.writer
    ensures (s.token == "" && s.expiry == 0 && forall p :: 0 <= p < |s.log| ==> !s.log[p].Stored?)
         || (exists p: nat :: PairOf(cfg, s.log, s.token, s.expiry, p))
  {
    ReachableInv(cfg, s);
    Consistent(cfg, s);
    ReplayLast(s.log);
    if Replay(s.log).Holding? {
      var p :| 0 <= p < |s.log| && s.log[p].Stored? && s.log[p].reply == Replay(s.log).reply && s.log[p].at == Replay(s.log).at
               && forall q :: p < q < |s.log| ==> !s.log[q].Stored?;
      assert PairOf(cfg, s.log, s.token, s.expiry, p);
    }
  }

  /** Nothing any caller does moves the pair under a caller that is inside the read section. */
  lemma ReaderUndisturbed(cfg: Config, s: State, e: Event, t: State, i: nat)
    requires Reachable(cfg, s) && Next(cfg, s, e) == Some(t)
    requires i < |s.callers| && InRead(s.callers[i].pc)
    ensures t.token == s.token && t.expiry == s.expiry
  {
    ReachableInv(cfg, s);
    LockExcludes(s);
    if !Untouched(s, t) { Writers(cfg, s, e, t); }
  }

  // ---------- freshness ----------

  lemma WrapAtMost(x: nat)
    ensures Wrap64(x) <= x
    ensures x < 0x8000_0000_0000_0000 ==> Wrap64(x) == x
  {
  }

  // w is the signed 64-bit integer that is congruent to x.
  predicate Int64Of(x: int, w: int) {
    -0x8000_0000_0000_0000 <= w < 0x8000_0000_0000_0000 && (x - w) % 0x1_0000_0000_0000_0000 == 0
  }

  lemma Wrap64Exact(x: int, w: int)
    ensures Wrap64(x) == w <==> Int64Of(x, w)
  {
  }

  /**
   How long after its store a reply is served: Buffer when the endpoint gave no ExpiresIn,
   otherwise ExpiresIn seconds less Buffer, where the nanoseconds are a 64-bit integer. They
   keep their value exactly up to 9223372036 seconds.
   */
  lemma LifetimeExact(cfg: Config, r: Reply)
    ensures r.expiresIn <= 0 ==> Lifetime(cfg, r) == cfg.buffer
    ensures r.expiresIn > 0 ==>
      (Lifetime(cfg, r) == r.expiresIn * 1_000_000_000 - cfg.buffer <==> r.expiresIn <= 9223372036)
    ensures r.expiresIn > 0 ==>
      forall w :: Int64Of(r.expiresIn * 1_000_000_000, w) <==> Lifetime(cfg, r) == w - cfg.buffer
  {
    forall w
      ensures Int64Of(r.expiresIn * 1_000_000_000, w) <==> Wrap64(r.expiresIn * 1_000_000_000) == w
    {
      Wrap64Exact(r.expiresIn * 1_000_000_000, w);
    }
  }

  // Entry q is the store that a hit at p was served from.
  ghost predicate ServedBy(log: seq<Entry>, p: nat, q: nat) {
    p < |log| && LastStore(log, q, p) && log[p].Hit? && log[p].token == log[q].reply.token
  }

  // The times of a hit: r issued and stored, then tested, with `buffer` to spare.
  ghost predicate InTime(cfg: Config, r: Reply, stored: Time, tested: Time) {
    && r.issuedAt <= stored <= tested < stored + Lifetime(cfg, r)
    && (r.expiresIn > 0 ==>
          && r.issuedAt + Seconds(r.expiresIn) - tested > cfg.buffer - (stored - r.issuedAt)
          && (stored - r.issuedAt <= cfg.buffer ==> tested < r.issuedAt + Seconds(r.expiresIn)))
    && (r.expiresIn <= 0 ==> tested < stored + cfg.buffer)
  }

  /**
   Every hit is served from the last store before it, within that store's lifetime. With i
   the instant of issue, s that of the store and t that of the test, a reply with
   ExpiresIn > 0 has i + ExpiresIn - t > Buffer - (s - i), so a delay of at most Buffer
   between issue and store never lets a token through past its true expiry. This needs no
   bound on ExpiresIn: a product that wraps around only shortens the lifetime. A reply
   without ExpiresIn is served for Buffer at most.
   */
  lemma Fresh(cfg: Config, s: State, p: nat)
    requires Reachable(cfg, s) && p < |s.log| && s.log[p].Hit?
    ensures exists q: nat :: ServedBy(s.log, p, q) && s.log[q].reply in s.issued
                             && InTime(cfg, s.log[q].reply, s.log[q].at, s.log[p].at)
  {
    ReachableInv(cfg, s);
    var log := s.log[..p];
    assert Allowed(cfg, Replay(log), s.log[p]);
    ReplayLast(log);
    var reg := Replay(log);
    var q: nat :| q < p && log[q].Stored? && log[q].reply == reg.reply && log[q].at == reg.at
                  && forall r :: q < r < p ==> !log[r].Stored?;
    assert forall r :: q <= r < p ==> log[r] == s.log[r];
    if reg.reply.expiresIn > 0 {
      WrapAtMost(Seconds(reg.reply.expiresIn));
    }
    assert ServedBy(s.log, p, q) && InTime(cfg, s.log[q].reply, s.log[q].at, s.log[p].at);
  }

  /** The first test: a caller goes on to the clock exactly when something was ever stored. */
  lemma LooksFurther(cfg: Config, s: State, i: nat, choice: Choice, t: State)
    requires Reachable(cfg, s) && i < |s.callers| == |t.callers| && s.callers[i].pc.Reading?
    requires Act(cfg, s, i, choice) == Some(t)
    ensures t.callers[i].pc.TokenSeen? <==> exists p :: 0 <= p < |s.log| && s.log[p].Stored?
    ensures t.callers[i].pc.Missed? <==> forall p :: 0 <= p < |s.log| ==> !s.log[p].Stored?
  {
    ReachableInv(cfg, s);
    Consistent(cfg, s);
    TokenMeansStored(cfg, s);
    ReplayLast(s.log);
  }

  lemma LastStoreIs(cfg: Config, s: State) returns (p: nat)
    requires Reachable(cfg, s) && Replay(s.log).Holding?
    ensures LastStore(s.log, p, |s.log|)
    ensures s.expiry == s.log[p].at + Lifetime(cfg, s.log[p].reply)
  {
    ReachableInv(cfg, s);
    ReplayLast(s.log);
    p :| p < |s.log| && s.log[p].Stored? && s.log[p].reply == Replay(s.log).reply && s.log[p].at == Replay(s.log).at
         && forall q :: p < q < |s.log| ==> !s.log[q].Stored?;
  }

  lemma SeenMeansStored(cfg: Config, s: State, i: nat)
    requires Reachable(cfg, s) && i < |s.callers| && s.callers[i].pc.ClockRead?
    ensures Replay(s.log).Holding?
  {
    ReachableInv(cfg, s);
    Consistent(cfg, s);
    assert PcOk(s, i, s.callers[i].pc);
  }

  /**
   The second test: a call that has read the clock hits exactly until the last stored token
   has been held for Buffer, if it came without ExpiresIn, or for ExpiresIn seconds less
   Buffer; past 9223372036 seconds the nanoseconds are what 64 bits leave of them.
   */
  lemma HitsExactly(cfg: Config, s: State, i: nat, choice: Choice, t: State) returns (p: nat)
    requires Reachable(cfg, s) && i < |s.callers| == |t.callers| && s.callers[i].pc.ClockRead?
    requires Act(cfg, s, i, choice) == Some(t)
    ensures LastStore(s.log, p, |s.log|) && (t.callers[i].pc.HitTested? <==> !t.callers[i].pc.Missed?)
    ensures var now, at, e, hit := s.callers[i].pc.now, s.log[p].at, s.log[p].reply.expiresIn, t.callers[i].pc.HitTested?;
      && (e <= 0 ==> (hit <==> now < at + cfg.buffer))
      && (0 < e <= 9223372036 ==> (hit <==> now < at + e * 1_000_000_000 - cfg.buffer))
      && (e > 9223372036 ==> forall w :: Int64Of(e * 1_000_000_000, w) ==> (hit <==> now < at + w - cfg.buffer))
  {
    SeenMeansStored(cfg, s, i);
    p := LastStoreIs(cfg, s);
    LifetimeExact(cfg, s.log[p].reply);
  }

  // ---------- what the callers are told ----------

  /**
   A call reports the word Bearer, a space and the token of its entry, which is a token the
   endpoint issued, or it reports nothing and its entry is a failure.
   */
  lemma Reports(cfg: Config, s: State, a: nat)
    requires Reachable(cfg, s) && a < |s.returned|
    ensures var r := s.returned[a];
      && r.point < |s.log|
      && (match s.log[r.point]
          case Hit(_, _, token) => r.result == Some("Bearer " + token) && exists x :: x in s.issued && x.token == token != ""
          case Stored(_, reply, _, _) => r.result == Some("Bearer " + reply.token) && reply in s.issued && reply.token != ""
          case Failed(_, _) => r.result == None)
  {
    ReachableInv(cfg, s);
    assert ReturnOk(s, a);
    var p := s.returned[a].point;
    assert SCHEME + " " == "Bearer ";
    if s.log[p].Hit? {
      Fresh(cfg, s, p);
      var q: nat :| ServedBy(s.log, p, q) && s.log[q].reply in s.issued;
    }
  }

  // ---------- what a run never takes back ----------

  /**
   With one lifetime for all replies the expiry never moves back, even when an older token
   replaces a newer one. The very first store cannot move it back from the zero time either
   where the lifetime is not negative and nothing was issued before the zero time.
   */
  lemma ExpiryMonotone(cfg: Config, s: State, es: seq<Event>, t: State, life: int)
    requires Reachable(cfg, s) && Run(cfg, s, es) == Some(t)
    requires forall p :: 0 <= p < |t.log| && t.log[p].Stored? ==> Lifetime(cfg, t.log[p].reply) == life
    requires (exists p :: 0 <= p < |s.log| && s.log[p].Stored?) || (life >= 0 && forall r :: r in t.issued ==> r.issuedAt >= 0)
    ensures s.expiry <= t.expiry
  {
    ReachableInv(cfg, s);
    ReplayLast(s.log);
    RunKeeps(cfg, s, es, t);
    if Replay(s.log).Holding? {
      var p :| 0 <= p < |s.log| && s.log[p].Stored? && s.log[p].reply == Replay(s.log).reply && s.log[p].at == Replay(s.log).at;
      assert t.log[p] == s.log[p];
      StoreHolds(cfg, s, es, t, p, life);
    } else {
      ReplayLast(t.log);
    }
  }

  /** The cached token is always one the endpoint issued. */
  lemma TokenIssued(cfg: Config, s: State)
    requires Reachable(cfg, s)
    ensures s.token == "" || exists r :: r in s.issued && r.token == s.token
  {
    ReachableInv(cfg, s);
    ReplayLast(s.log);
    if i :| 0 <= i < |s.callers| && MidWrite(s.callers[i].pc) {
      assert PcOk(s, i, s.callers[i].pc);
      assert s.callers[i].pc.reply in s.issued;
    } else if Replay(s.log).Holding? {
      assert Replay(s.log).reply in s.issued;
    }
  }

  lemma TokenStep(cfg: Config, s: State, e: Event, t: State)
    requires Inv(cfg, s) && Next(cfg, s, e) == Some(t) && s.token != ""
    ensures t.token != ""
  {
    if e.Step? {
      assert PcOk(s, e.i, s.callers[e.i].pc);
    }
  }

  /** Once the cache holds a token it always holds one. */
  lemma {:induction false} TokenStays(cfg: Config, s: State, es: seq<Event>, t: State)
    requires Reachable(cfg, s) && Run(cfg, s, es) == Some(t) && s.token != ""
    ensures t.token != ""
  {
    if es != [] {
      var m := Run(cfg, s, es[..|es| - 1]).value;
      TokenStays(cfg, s, es[..|es| - 1], m);
      ReachableInv(cfg, s);
      RunKeeps(cfg, s, es[..|es| - 1], m);
      TokenStep(cfg, m, es[|es| - 1], t);
    }
  }

  // ---------- lock discipline and progress ----------

  /** The lock counts exactly the callers in its sections; a caller that has returned holds nothing. */
  lemma LockDiscipline(cfg: Config, s: State)
    requires Reachable(cfg, s)
    ensures s.readers == Count(s.callers, Read) && Count(s.callers, Write) == (if s.writer then 1 else 0)
    ensures Exclusion(s.callers)
    ensures (forall i :: 0 <= i < |s.callers| ==> s.callers[i].pc == Idle) ==> s.readers == 0 && !s.writer
  {
    ReachableInv(cfg, s);
    LockExcludes(s);
  }

  ghost predicate AllIdle(s: State) {
    forall i :: 0 <= i < |s.callers| ==> s.callers[i].pc == Idle
  }

  // Caller i can take its next step as soon as its fetch, if it is in one, ends either way;
  // waiting writers keep new readers out.
  ghost predicate Ready(cfg: Config, s: State, i: nat) {
    && i < |s.callers| && (forall choice: Choice :: choice != Quiet ==> Act(cfg, s, i, choice).Some?)
    && (s.callers[i].pc.WantRead? ==> forall j :: 0 <= j < |s.callers| ==> !s.callers[j].pc.WantWrite?)
  }

  lemma ReadyUnlessWaiting(cfg: Config, s: State, i: nat)
    requires i < |s.callers| && s.callers[i].pc != Idle
    requires s.callers[i].pc.WantRead? ==> !s.writer && forall j :: 0 <= j < |s.callers| ==> !s.callers[j].pc.WantWrite?
    requires s.callers[i].pc.WantWrite? ==> !s.writer && s.readers == 0
    ensures Ready(cfg, s, i)
  {
  }

  lemma SomebodyInside(cfg: Config, s: State)
    requires Reachable(cfg, s)
    ensures s.writer ==> exists j :: 0 <= j < |s.callers| && InWrite(s.callers[j].pc)
    ensures s.readers != 0 ==> exists j :: 0 <= j < |s.callers| && InRead(s.callers[j].pc)
  {
    ReachableInv(cfg, s);
    LockExcludes(s);
  }

  /** A pending call never leaves the machine stuck: some caller can always move. */
  lemma NoDeadlock(cfg: Config, s: State)
    requires Reachable(cfg, s) && !AllIdle(s)
    ensures exists j: nat :: Ready(cfg, s, j)
  {
    SomebodyInside(cfg, s);
    var j: nat :| j < |s.callers| && s.callers[j].pc != Idle;
    if s.writer {
      j :| j < |s.callers| && InWrite(s.callers[j].pc);
    } else if s.readers != 0 {
      j :| j < |s.callers| && InRead(s.callers[j].pc);
    } else if w :| 0 <= w < |s.callers| && s.callers[w].pc.WantWrite? {
      j := w;
    }
    ReadyUnlessWaiting(cfg, s, j);
  }

  // The most steps a caller still takes before its call returns.
  function Rank(pc: Pc): nat {
    match pc
    case Idle => 0
    case WantRead => 13
    case Reading => 12
    case TokenSeen => 11
    case ClockRead(_) => 10
    case HitTested(_) => 2
    case HitRead(_, _) => 1
    case Missed => 9
    case Fetching => 8
    case InFlight(_) => 7
    case WantWrite(_) => 6
    case Writing(_) => 5
    case TokenWritten(_) => 4
    case Stamped(_, _) => 3
    case ExpiryWritten(_) => 2
    case StoreRead(_, _) => 1
  }

  lemma RankFalls(cfg: Config, s: State, i: nat, choice: Choice, t: State)
    requires i < |s.callers| == |t.callers| && Act(cfg, s, i, choice) == Some(t)
    ensures Rank(t.callers[i].pc) < Rank(s.callers[i].pc)
  {
  }

  predicate StepOf(e: Event, i: nat) {
    e.Step? && e.i == i
  }

  function StepsOf(es: seq<Event>, i: nat): nat {
    if es == [] then 0
    else StepsOf(es[..|es| - 1], i) + (if StepOf(es[|es| - 1], i) then 1 else 0)
  }

  function Steps(es: seq<Event>): nat {
    if es == [] then 0 else Steps(es[..|es| - 1]) + (if es[|es| - 1].Step? then 1 else 0)
  }

  /**
   From wherever caller i stands, it takes at most Rank more steps before it has to begin a
   new call, whatever the others do and however time passes: 13 for a call from its beginning.
   */
  lemma {:induction false} BoundedCalls(cfg: Config, s: State, es: seq<Event>, t: State, i: nat)
    requires Run(cfg, s, es) == Some(t) && i < |s.callers| && Start(i) !in es
    ensures |t.callers| == |s.callers| && StepsOf(es, i) + Rank(t.callers[i].pc) <= Rank(s.callers[i].pc) <= 13
  {
    if es != [] {
      var m, e := Run(cfg, s, es[..|es| - 1]).value, es[|es| - 1];
      assert e in es && forall x :: x in es[..|es| - 1] ==> x in es;
      BoundedCalls(cfg, s, es[..|es| - 1], m, i);
      Growth(cfg, m, e, t);
      Shape(cfg, m, e, t);
      if StepOf(e, i) {
        RankFalls(cfg, m, i, e.choice, t);
      }
    }
  }

  function Work(cs: seq<Caller>): nat {
    if cs == [] then 0 else Work(cs[..|cs| - 1]) + Rank(cs[|cs| - 1].pc)
  }

  lemma {:induction false} WorkUpdate(cs: seq<Caller>, i: nat, c: Caller)
    requires i < |cs|
    ensures Work(cs[i := c]) == Work(cs) - Rank(cs[i].pc) + Rank(c.pc)
  {
    var last := |cs| - 1;
    if i == last {
      assert cs[i := c][..last] == cs[..last];
    } else {
      assert cs[i := c][..last] == cs[..last][i := c];
      WorkUpdate(cs[..last], i, c);
    }
  }

  /**
   However the fetches end, whoever goes first and however time passes, a schedule that begins
   no new call holds at most Work steps of callers, and when nobody can move any more every
   call has returned and the lock is free.
   */
  lemma Terminates(cfg: Config, s: State, es: seq<Event>, t: State)
    requires Reachable(cfg, s) && Run(cfg, s, es) == Some(t)
    requires forall k :: 0 <= k < |es| ==> !es[k].Start?
    ensures Steps(es) + Work(t.callers) <= Work(s.callers)
    ensures (forall j: nat :: !Ready(cfg, t, j)) ==> AllIdle(t) && t.readers == 0 && !t.writer
  {
    WorkFalls(cfg, s, es, t);
    ReachableOnward(cfg, s, es);
    if forall j: nat :: !Ready(cfg, t, j) {
      if !AllIdle(t) { NoDeadlock(cfg, t); }
      LockDiscipline(cfg, t);
    }
  }

  lemma {:induction false} WorkFalls(cfg: Config, s: State, es: seq<Event>, t: State)
    requires Run(cfg, s, es) == Some(t) && forall k :: 0 <= k < |es| ==> !es[k].Start?
    ensures Steps(es) + Work(t.callers) <= Work(s.callers)
  {
    if es != [] {
      var m, e := Run(cfg, s, es[..|es| - 1]).value, es[|es| - 1];
      WorkFalls(cfg, s, es[..|es| - 1], m);
      Growth(cfg, m, e, t);
      Shape(cfg, m, e, t);
      if e.Step? {
        RankFalls(cfg, m, e.i, e.choice, t);
        WorkUpdate(m.callers, e.i, t.callers[e.i]);
      }
    }
  }
}
