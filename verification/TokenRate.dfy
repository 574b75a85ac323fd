/** How often the cache can be filled, however the callers interleave. */
module TokenRate {
  import opened Clock
  import opened Wrappers
  import opened TokenMachine
  import opened TokenInvariant

  // Every reply that was stored is served from the cache for at least `life`.
  ghost predicate Grants(cfg: Config, log: seq<Entry>, life: int) {
    forall p :: 0 <= p < |log| && log[p].Stored? ==> Lifetime(cfg, log[p].reply) >= life
  }

  // No store ever lowers the expiry below its own guarantee, whoever stores later.
  ghost predicate Floor(s: State, life: int) {
    forall p :: 0 <= p < |s.log| && s.log[p].Stored? ==> s.log[p].at + life <= s.expiry
  }

  // Every earlier store of caller i happened at least `life` before `time`.
  ghost predicate LongAgo(log: seq<Entry>, i: nat, life: int, time: Time) {
    forall p :: 0 <= p < |log| && log[p].Stored? && log[p].who == i ==> log[p].at + life <= time
  }

  ghost predicate Patient(s: State, i: nat, pc: Pc, life: int) {
    Refreshing(pc) ==> LongAgo(s.log, i, life, if pc.Stamped? then pc.at else s.clock)
  }

  // Two stores of one caller are at least `life` apart.
  ghost predicate Spaced(log: seq<Entry>, life: int) {
    forall p, q :: 0 <= p < q < |log| && log[p].Stored? && log[q].Stored? && log[p].who == log[q].who
                   ==> log[p].at + life <= log[q].at
  }

  ghost predicate RateInv(s: State, life: int) {
    && Floor(s, life) && Spaced(s.log, life)
    && (forall i :: 0 <= i < |s.callers| ==> Patient(s, i, s.callers[i].pc, life))
  }

  lemma PatienceKept(s: State, t: State, j: nat, pc: Pc, life: int)
    requires Patient(s, j, pc, life) && s.clock <= t.clock && s.log <= t.log
    requires forall p :: |s.log| <= p < |t.log| && t.log[p].Stored? ==> t.log[p].who != j
    ensures Patient(t, j, pc, life)
  {
  }

  lemma OthersPatient(cfg: Config, s: State, e: Event, t: State, life: int, j: nat)
    requires Next(cfg, s, e) == Some(t) && j < |s.callers| == |t.callers|
    requires (e.Advance? || j != e.i) && Patient(s, j, s.callers[j].pc, life)
    ensures t.callers[j] == s.callers[j] && Patient(t, j, t.callers[j].pc, life)
  {
    Growth(cfg, s, e, t);
    Shape(cfg, s, e, t);
    if exists p :: |s.log| <= p < |t.log| && t.log[p].Stored? {
      StoreShape(cfg, s, e, t);
    }
    PatienceKept(s, t, j, s.callers[j].pc, life);
  }

  lemma MoverPatient(cfg: Config, s: State, i: nat, choice: Choice, t: State, life: int)
    requires i < |s.callers| == |t.callers| && Act(cfg, s, i, choice) == Some(t)
    requires PcOk(s, i, s.callers[i].pc) && Floor(s, life) && Patient(s, i, s.callers[i].pc, life)
    requires s.token == "" ==> forall p :: 0 <= p < |s.log| ==> !s.log[p].Stored?
    ensures Patient(t, i, t.callers[i].pc, life)
  {
  }

  lemma StoreSpaced(cfg: Config, s: State, i: nat, pc: Pc, miss: Miss, t: State, life: int)
    requires i < |s.callers| && pc.Stamped? && StoredBy(s.log, pc.at) && Patient(s, i, pc, life)
    requires t.log == s.log + [Stored(i, pc.reply, pc.at, miss)] && t.expiry == pc.at + Lifetime(cfg, pc.reply)
    requires Floor(s, life) && Spaced(s.log, life) && Grants(cfg, t.log, life)
    ensures Floor(t, life) && Spaced(t.log, life)
  {
    assert t.log[|s.log|].Stored?;
  }

  lemma FloorKept(cfg: Config, s: State, e: Event, t: State, life: int)
    requires Inv(cfg, s) && RateInv(s, life) && Next(cfg, s, e) == Some(t) && Grants(cfg, t.log, life)
    ensures Floor(t, life) && Spaced(t.log, life)
  {
    Growth(cfg, s, e, t);
    if t.expiry != s.expiry || exists p :: |s.log| <= p < |t.log| && t.log[p].Stored? {
      StoreShape(cfg, s, e, t);
      assert PcOk(s, e.i, s.callers[e.i].pc);
      StoreSpaced(cfg, s, e.i, s.callers[e.i].pc, s.callers[e.i].miss, t, life);
    }
  }

  lemma RateKept(cfg: Config, s: State, e: Event, t: State, life: int)
    requires Inv(cfg, s) && RateInv(s, life) && Next(cfg, s, e) == Some(t) && Grants(cfg, t.log, life)
    ensures RateInv(t, life)
  {
    Growth(cfg, s, e, t);
    Shape(cfg, s, e, t);
    forall j | 0 <= j < |t.callers|
      ensures Patient(t, j, t.callers[j].pc, life)
    {
      if e.Advance? || j != e.i {
        OthersPatient(cfg, s, e, t, life, j);
      } else if e.Step? {
        TokenMeansStored(cfg, s);
        ReplayLast(s.log);
        MoverPatient(cfg, s, j, e.choice, t, life);
      }
    }
    FloorKept(cfg, s, e, t, life);
  }

  lemma {:induction false} RunRate(cfg: Config, s: State, es: seq<Event>, t: State, life: int)
    requires Inv(cfg, s) && RateInv(s, life) && Run(cfg, s, es) == Some(t) && Grants(cfg, t.log, life)
    ensures RateInv(t, life)
  {
    if es != [] {
      var m, last := Run(cfg, s, es[..|es| - 1]).value, es[|es| - 1];
      RunKeeps(cfg, s, es[..|es| - 1], m);
      Growth(cfg, m, last, t);
      RunRate(cfg, s, es[..|es| - 1], m, life);
      RateKept(cfg, m, last, t, life);
    }
  }

  lemma ReachableRate(cfg: Config, s: State, life: int)
    requires Reachable(cfg, s) && Grants(cfg, s.log, life)
    ensures RateInv(s, life)
  {
    var n: nat, clock: Time, es :| Run(cfg, Init(n, clock), es) == Some(s);
    InitInv(cfg, n, clock);
    RunRate(cfg, Init(n, clock), es, s, life);
  }

  // ---------- counting the stores of a time window ----------

  predicate InWindow(e: Entry, from: Time, length: nat) {
    e.Stored? && from <= e.at <= from + length
  }

  /** How many stores fall in the window [from, from + length]. */
  function Stores(log: seq<Entry>, from: Time, length: nat): nat {
    if log == [] then 0
    else Stores(log[..|log| - 1], from, length) + (if InWindow(log[|log| - 1], from, length) then 1 else 0)
  }

  function StoresOf(log: seq<Entry>, i: nat, from: Time, length: nat): nat {
    if log == [] then 0
    else StoresOf(log[..|log| - 1], i, from, length) +
         (if InWindow(log[|log| - 1], from, length) && log[|log| - 1].who == i then 1 else 0)
  }

  function StoresOfAll(log: seq<Entry>, n: nat, from: Time, length: nat): nat {
    if n == 0 then 0 else StoresOfAll(log, n - 1, from, length) + StoresOf(log, n - 1, from, length)
  }

  lemma {:induction false} SumByCaller(log: seq<Entry>, n: nat, from: Time, length: nat)
    requires forall p :: 0 <= p < |log| ==> log[p].who < n
    ensures Stores(log, from, length) == StoresOfAll(log, n, from, length)
  {
    if log == [] {
      SumEmpty(n, from, length);
    } else {
      SumByCaller(log[..|log| - 1], n, from, length);
      SumLast(log, n, from, length);
    }
  }

  lemma {:induction false} SumEmpty(n: nat, from: Time, length: nat)
    ensures StoresOfAll([], n, from, length) == 0
  {
    if n > 0 { SumEmpty(n - 1, from, length); }
  }

  lemma {:induction false} SumLast(log: seq<Entry>, n: nat, from: Time, length: nat)
    requires log != []
    ensures var x := log[|log| - 1];
      StoresOfAll(log, n, from, length) ==
      StoresOfAll(log[..|log| - 1], n, from, length) + (if InWindow(x, from, length) && x.who < n then 1 else 0)
  {
    if n > 0 { SumLast(log, n - 1, from, length); }
  }

  lemma OneMore(k: int, life: int)
    ensures k * life == (k - 1) * life + life
  {
  }

  // k stores of one caller in a window stretch over at least k - 1 lifetimes.
  lemma {:induction false} StretchOf(log: seq<Entry>, i: nat, from: Time, length: nat, life: int)
    requires Spaced(log, life) && StoresOf(log, i, from, length) >= 1
    ensures exists p :: 0 <= p < |log| && log[p].who == i && InWindow(log[p], from, length)
                        && from + (StoresOf(log, i, from, length) - 1) * life <= log[p].at
  {
    var init, x := log[..|log| - 1], log[|log| - 1];
    var k := StoresOf(init, i, from, length);
    if k >= 1 {
      StretchOf(init, i, from, length, life);
      var p :| 0 <= p < |init| && init[p].who == i && InWindow(init[p], from, length) && from + (k - 1) * life <= init[p].at;
      assert log[p] == init[p];
      if InWindow(x, from, length) && x.who == i {
        OneMore(k, life);
        assert log[|log| - 1].who == i;
      }
    } else {
      assert log[|log| - 1].who == i;
    }
  }

  lemma WindowOf(log: seq<Entry>, i: nat, from: Time, length: nat, life: int)
    requires life > 0 && Spaced(log, life)
    ensures StoresOf(log, i, from, length) <= length / life + 1
  {
    var k := StoresOf(log, i, from, length);
    if k >= 1 {
      StretchOf(log, i, from, length, life);
      Quotient(k - 1, length, life);
    }
  }

  lemma Quotient(k: nat, length: nat, life: int)
    requires life > 0 && k * life <= length
    ensures k <= length / life
  {
    var q := length / life;
    assert (k - (q + 1)) * life == k * life - (q + 1) * life < 0;
  }

  lemma {:induction false} WindowOfAll(log: seq<Entry>, n: nat, from: Time, length: nat, life: int)
    requires life > 0 && Spaced(log, life)
    ensures StoresOfAll(log, n, from, length) <= n * (length / life + 1)
  {
    if n > 0 {
      WindowOfAll(log, n - 1, from, length, life);
      WindowOf(log, n - 1, from, length, life);
      assert n * (length / life + 1) == (n - 1) * (length / life + 1) + (length / life + 1);
    }
  }

  /**
   The fetch-rate bound: while every stored reply is worth at least `life`, n callers
   together store at most n * (length / life + 1) times in any window.
   */
  lemma FetchRate(cfg: Config, s: State, from: Time, length: nat, life: int)
    requires Reachable(cfg, s) && life > 0 && Grants(cfg, s.log, life)
    ensures Stores(s.log, from, length) <= |s.callers| * (length / life + 1)
  {
    ReachableRate(cfg, s, life);
    ReachableInv(cfg, s);
    SumByCaller(s.log, |s.callers|, from, length);
    WindowOfAll(s.log, |s.callers|, from, length, life);
  }

  /** After a store no later state lets the expiry fall below that store's guarantee. */
  lemma StoreHolds(cfg: Config, s: State, es: seq<Event>, t: State, p: nat, life: int)
    requires Reachable(cfg, s) && Run(cfg, s, es) == Some(t) && Grants(cfg, t.log, life)
    requires p < |s.log| && s.log[p].Stored?
    ensures s.log[p].at + life <= t.expiry
  {
    ReachableInv(cfg, s);
    RunKeeps(cfg, s, es, t);
    ReachableOnward(cfg, s, es);
    ReachableRate(cfg, t, life);
    assert t.log[p] == s.log[p];
  }
}
