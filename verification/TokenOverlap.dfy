/** When a second token is fetched although a first one has been stored. */
module TokenOverlap {
  import opened Clock
  import opened Wrappers
  import opened TokenMachine
  import opened TokenInvariant
  import opened TokenRate
  import opened TokenTheorems
  import opened TokenSchedules

  // Some refresh, under way or in the log, was sent off by the test m.
  ghost predicate Sent(s: State, m: Miss) {
    || (exists i :: 0 <= i < |s.callers| && Refreshing(s.callers[i].pc) && s.callers[i].miss == m)
    || (exists p :: 0 <= p < |s.log| && !s.log[p].Hit? && s.log[p].miss == m)
  }

  // The test was not made after the clock reading of a store that follows it.
  ghost predicate Earlier(s: State, m: Miss) {
    && m.time <= s.clock
    && (forall i :: 0 <= i < |s.callers| && s.callers[i].pc.Stamped? ==> m.time <= s.callers[i].pc.at)
    && (forall p :: m.point <= p < |s.log| && s.log[p].Stored? ==> m.time <= s.log[p].at)
  }

  ghost predicate TestsInv(s: State) {
    forall m :: Sent(s, m) ==> Earlier(s, m)
  }

  // What a step logs for a refresh carries the test of the caller that moved.
  lemma EntryMiss(cfg: Config, s: State, i: nat, choice: Choice, t: State)
    requires i < |s.callers| && Act(cfg, s, i, choice) == Some(t) && |t.log| > |s.log|
    ensures !t.log[|s.log|].Hit? ==> Refreshing(s.callers[i].pc) && t.log[|s.log|].miss == s.callers[i].miss
  {
  }

  // A test made by this very step.
  ghost predicate JustTested(s: State, e: Event, m: Miss) {
    e.Step? && e.i < |s.callers| && InRead(s.callers[e.i].pc) && m.point == |s.log| && m.time <= s.clock
  }

  lemma CallerSent(cfg: Config, s: State, e: Event, t: State, i: nat)
    requires Inv(cfg, s) && Next(cfg, s, e) == Some(t) && i < |t.callers| && Refreshing(t.callers[i].pc)
    ensures Sent(s, t.callers[i].miss) || JustTested(s, e, t.callers[i].miss)
  {
    Growth(cfg, s, e, t);
    Shape(cfg, s, e, t);
    assert PcOk(s, i, s.callers[i].pc);
    if e.Step? && e.i == i {
      MissShape(cfg, s, i, e.choice, t);
    }
  }

  lemma EntrySent(cfg: Config, s: State, e: Event, t: State, p: nat)
    requires Next(cfg, s, e) == Some(t) && p < |t.log| && !t.log[p].Hit?
    ensures Sent(s, t.log[p].miss)
  {
    Growth(cfg, s, e, t);
    if p < |s.log| {
      assert s.log[p] == t.log[p];
    } else {
      EntryMiss(cfg, s, e.i, e.choice, t);
    }
  }

  // The step moves time on and stamps or logs with the times its callers have read.
  ghost predicate TimeStep(s: State, t: State) {
    && s.clock <= t.clock
    && (forall i :: 0 <= i < |t.callers| && t.callers[i].pc.Stamped? ==>
          t.callers[i].pc.at == t.clock || (i < |s.callers| && s.callers[i].pc == t.callers[i].pc))
    && (forall p :: |s.log| <= p < |t.log| && t.log[p].Stored? ==>
          exists i :: 0 <= i < |s.callers| && s.callers[i].pc.Stamped? && s.callers[i].pc.at == t.log[p].at)
  }

  lemma StampShape(cfg: Config, s: State, i: nat, choice: Choice, t: State)
    requires i < |s.callers| == |t.callers| && Act(cfg, s, i, choice) == Some(t)
    ensures t.callers[i].pc.Stamped? ==> t.callers[i].pc.at == t.clock
  {
  }

  lemma TimeShape(cfg: Config, s: State, e: Event, t: State)
    requires Next(cfg, s, e) == Some(t)
    ensures TimeStep(s, t)
  {
    Growth(cfg, s, e, t);
    Shape(cfg, s, e, t);
    if e.Step? { StampShape(cfg, s, e.i, e.choice, t); }
    if p :| |s.log| <= p < |t.log| && t.log[p].Stored? {
      StoreShape(cfg, s, e, t);
    }
  }

  lemma EarlierKept(s: State, t: State, m: Miss)
    requires Earlier(s, m) && TimeStep(s, t) && s.log <= t.log
    ensures Earlier(t, m)
  {
  }

  lemma JustEarlier(s: State, e: Event, m: Miss)
    requires Exclusion(s.callers) && JustTested(s, e, m)
    ensures Earlier(s, m)
  {
  }

  lemma TestsKept(cfg: Config, s: State, e: Event, t: State)
    requires Inv(cfg, s) && TestsInv(s) && Next(cfg, s, e) == Some(t)
    ensures TestsInv(t)
  {
    Growth(cfg, s, e, t);
    TimeShape(cfg, s, e, t);
    LockExcludes(s);
    forall m | Sent(t, m)
      ensures Earlier(t, m)
    {
      if i :| 0 <= i < |t.callers| && Refreshing(t.callers[i].pc) && t.callers[i].miss == m {
        CallerSent(cfg, s, e, t, i);
      } else {
        var p :| 0 <= p < |t.log| && !t.log[p].Hit? && t.log[p].miss == m;
        EntrySent(cfg, s, e, t, p);
      }
      if JustTested(s, e, m) { JustEarlier(s, e, m); }
      EarlierKept(s, t, m);
    }
  }

  lemma {:induction false} RunTests(cfg: Config, s: State, es: seq<Event>, t: State)
    requires Inv(cfg, s) && TestsInv(s) && Run(cfg, s, es) == Some(t)
    ensures TestsInv(t)
  {
    if es != [] {
      var m := Run(cfg, s, es[..|es| - 1]).value;
      RunKeeps(cfg, s, es[..|es| - 1], m);
      RunTests(cfg, s, es[..|es| - 1], m);
      TestsKept(cfg, m, es[|es| - 1], t);
    }
  }

  lemma ReachableTests(cfg: Config, s: State)
    requires Reachable(cfg, s)
    ensures TestsInv(s)
  {
    var n: nat, clock: Time, es :| Run(cfg, Init(n, clock), es) == Some(s);
    InitInv(cfg, n, clock);
    RunTests(cfg, Init(n, clock), es, s);
  }

  // ---------- a second refresh ----------

  // The refresh sent off by m goes on although store p has been made since its test.
  predicate Superfluous(m: Miss, p: nat) {
    m.point <= p
  }

  /**
   A refresh sent off by m, logged at q > p or still under way, next to store p, when p is
   the last store so far: either its test was made before p was stored, or it was made at or
   after p's expiry. Where p's lifetime is positive the two exclude each other, so the test's
   time alone tells which.
   */
  lemma SecondRefresh(cfg: Config, s: State, m: Miss, p: nat, q: nat)
    requires Reachable(cfg, s) && LastStore(s.log, p, q)
    requires || (q < |s.log| && !s.log[q].Hit? && s.log[q].miss == m)
             || (q == |s.log| && exists i :: 0 <= i < |s.callers| && Refreshing(s.callers[i].pc) && s.callers[i].miss == m)
    ensures Superfluous(m, p) || s.log[p].at + Lifetime(cfg, s.log[p].reply) <= m.time
    ensures Lifetime(cfg, s.log[p].reply) > 0 ==>
      (Superfluous(m, p) <==> m.time < s.log[p].at + Lifetime(cfg, s.log[p].reply))
  {
    ReachableTests(cfg, s);
    NoNeedlessFetch(cfg, s);
    assert Sent(s, m) && Earlier(s, m);
    assert m.point <= q && FoundStale(cfg, s.log, m.point, m.time);
    if p < m.point {
      assert LastStore(s.log, p, m.point);
    }
  }

  /**
   The same for a store p anywhere before q: while every stored reply is worth at least
   `life`, a refresh was sent off before p was stored or not until `life` after it.
   */
  lemma LaterRefresh(cfg: Config, s: State, p: nat, q: nat, life: int)
    requires Reachable(cfg, s) && Grants(cfg, s.log, life) && life > 0
    requires p < q < |s.log| && s.log[p].Stored? && !s.log[q].Hit?
    ensures Superfluous(s.log[q].miss, p) <==> s.log[q].miss.time < s.log[p].at + life
  {
    var m := s.log[q].miss;
    ReachableTests(cfg, s);
    ReachableInv(cfg, s);
    NoNeedlessFetch(cfg, s);
    assert Sent(s, m) && Earlier(s, m);
    if p < m.point {
      assert s.log[p].Stored?;
      var r: nat :| LastStore(s.log, r, m.point) && s.log[r].at + Lifetime(cfg, s.log[r].reply) <= m.time;
      assert p <= r && s.log[p].at <= s.log[r].at;
    }
  }

  // ---------- exactly how many callers are safe ----------

  lemma PendingWho(cfg: Config, s: State, i: nat)
    requires CellInv(cfg, s) && i < |s.callers| && Pointed(s.callers[i].pc)
    ensures PointOf(s.callers[i].pc) < |s.log| && s.log[PointOf(s.callers[i].pc)].who == i
  {
    assert PcOk(s, i, s.callers[i].pc);
  }

  // Only the last entry of a caller can be that of its pending call.
  lemma EarlierDone(cfg: Config, s: State, p: nat, q: nat)
    requires CellInv(cfg, s) && CallsInv(s) && p < q < |s.log| && s.log[p].who == s.log[q].who
    ensures Done(s, p)
  {
    assert (Done(s, p) || Pending(s, p)) && (Done(s, q) || Pending(s, q));
    if i :| 0 <= i < |s.callers| && Pointed(s.callers[i].pc) && PointOf(s.callers[i].pc) == p {
      PendingWho(cfg, s, i);
      assert CallOk(s, i, s.callers[i]);
      LaterNotDone(s, i, q);
      var j :| 0 <= j < |s.callers| && Pointed(s.callers[j].pc) && PointOf(s.callers[j].pc) == q;
      PendingWho(cfg, s, j);
    }
  }

  lemma LaterNotDone(s: State, i: nat, q: nat)
    requires CallsInv(s) && i < |s.callers| && s.callers[i].pc != Idle && s.callers[i].begin <= q < |s.log| && s.log[q].who == i
    ensures !Done(s, q)
  {
    assert CallOk(s, i, s.callers[i]);
    forall a | 0 <= a < |s.returned|
      ensures s.returned[a].point != q
    {
      assert ReturnOk(s, a);
    }
  }

  // A caller's later call begins after its earlier entry, and so does that call's test.
  lemma LaterReturned(s: State, a: nat, b: nat)
    requires CallsInv(s) && a < |s.returned| && b < |s.returned| && s.returned[a].who == s.returned[b].who
    requires s.returned[a].point < s.returned[b].point < |s.log|
    ensures s.returned[a].point < s.returned[b].begin && TestedSince(s.log[s.returned[b].point], s.returned[b].begin)
  {
    assert ReturnOk(s, a) && ReturnOk(s, b);
  }

  lemma LaterPending(s: State, a: nat, j: nat)
    requires CallsInv(s) && a < |s.returned| && j < |s.callers| && s.returned[a].who == j
    requires Pointed(s.callers[j].pc) && PointOf(s.callers[j].pc) < |s.log|
    ensures s.returned[a].point < s.callers[j].begin && TestedSince(s.log[PointOf(s.callers[j].pc)], s.callers[j].begin)
  {
    assert CallOk(s, j, s.callers[j]);
  }

  lemma ReturnedWho(s: State, a: nat)
    requires CallsInv(s) && a < |s.returned|
    ensures s.returned[a].point < |s.log| && s.log[s.returned[a].point].who == s.returned[a].who
  {
    assert ReturnOk(s, a);
  }

  lemma OwnRefreshes(cfg: Config, s: State, p: nat, q: nat)
    requires CellInv(cfg, s) && CallsInv(s) && p < q < |s.log| && s.log[p].who == s.log[q].who && !s.log[q].Hit?
    ensures !Superfluous(s.log[q].miss, p)
  {
    EarlierDone(cfg, s, p, q);
    var a :| 0 <= a < |s.returned| && s.returned[a].point == p;
    ReturnedWho(s, a);
    assert Done(s, q) || Pending(s, q);
    if Done(s, q) {
      var b :| 0 <= b < |s.returned| && s.returned[b].point == q;
      ReturnedWho(s, b);
      LaterReturned(s, a, b);
    } else {
      var j :| 0 <= j < |s.callers| && Pointed(s.callers[j].pc) && PointOf(s.callers[j].pc) == q;
      PendingWho(cfg, s, j);
      LaterPending(s, a, j);
    }
  }

  // No token was stored by a call that had tested the cache before the last store.
  ghost predicate NoSecondStore(log: seq<Entry>) {
    forall p: nat, q: nat :: p < q < |log| && log[p].Stored? && log[q].Stored? ==> !Superfluous(log[q].miss, p)
  }

  // Two callers are both sent off before either stores.
  lemma StoreTwice(cfg: Config, n: nat) returns (t: State)
    requires n >= 2
    ensures Reachable(cfg, t) && |t.callers| == n && !NoSecondStore(t.log)
  {
    var s, r := Init(n, 0), Reply("a", 1, 0);
    assert Run(cfg, s, []) == Some(s);
    t := Fetches(cfg, s, s, 0, r);
    t := Fetches(cfg, s, t, 1, r);
    t := StoresNow(cfg, s, t, 0, r);
    t := StoresNow(cfg, s, t, 1, r);
    assert t.log[0].Stored? && t.log[1].Stored? && Superfluous(t.log[1].miss, 0);
    LeadsReachable(cfg, s, t);
  }

  /** With n callers nobody ever fetches beside another's store exactly when there is but one caller. */
  lemma OneFetchAlone(cfg: Config, n: nat)
    ensures (forall s :: Reachable(cfg, s) && |s.callers| == n ==> NoSecondStore(s.log)) <==> n <= 1
  {
    if n >= 2 {
      var t := StoreTwice(cfg, n);
    } else {
      forall s | Reachable(cfg, s) && |s.callers| == n
        ensures NoSecondStore(s.log)
      {
        ReachableInv(cfg, s);
        forall p: nat, q: nat | p < q < |s.log| && s.log[p].Stored? && s.log[q].Stored?
          ensures !Superfluous(s.log[q].miss, p)
        {
          OwnRefreshes(cfg, s, p, q);
        }
      }
    }
  }
}
