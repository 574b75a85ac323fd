/** When the newest token wins: stores in the order of issue. */
module TokenOrder {
  import opened Clock
  import opened Wrappers
  import opened TokenMachine
  import opened TokenInvariant
  import opened TokenTheorems
  import opened TokenSchedules

  // At no time was a stored token replaced by one issued before it.
  ghost predicate InOrder(log: seq<Entry>) {
    forall p, q :: 0 <= p < q < |log| && log[p].Stored? && log[q].Stored? ==>
      log[p].reply.issuedAt <= log[q].reply.issuedAt
  }

  // The caller has a usable reply and has not stored it; while it waits others may go first.
  predicate Waits(pc: Pc) {
    (pc.InFlight? || pc.WantWrite?) && pc.reply.token != ""
  }

  predicate Carries(pc: Pc) {
    Waits(pc) || pc.Writing? || pc.TokenWritten? || pc.Stamped?
  }

  // Two replies are under way and the older of them need not be stored first.
  ghost predicate Racing(s: State, i: nat, j: nat) {
    && i < |s.callers| && j < |s.callers| && Waits(s.callers[i].pc) && Carries(s.callers[j].pc)
    && s.callers[i].pc.reply.issuedAt < s.callers[j].pc.reply.issuedAt
  }

  // A reply is under way that is older than one already stored.
  ghost predicate Late(s: State, i: nat, p: nat) {
    && i < |s.callers| && p < |s.log| && Carries(s.callers[i].pc) && s.log[p].Stored?
    && s.callers[i].pc.reply.issuedAt < s.log[p].reply.issuedAt
  }

  ghost predicate Calm(s: State) {
    && (forall i: nat, j: nat :: !Racing(s, i, j))
    && (forall i: nat, p: nat :: !Late(s, i, p))
  }

  // An issue while nobody else waits with a usable reply from an earlier instant.
  ghost predicate Guarded(s: State, e: Event) {
    Issues(e) && e.i < |s.callers| && s.callers[e.i].pc.Fetching? && e.choice.token != "" ==>
      forall k :: 0 <= k < |s.callers| && Waits(s.callers[k].pc) ==> s.callers[k].pc.reply.issuedAt == s.clock
  }

  // ---------- guarded steps keep the order ----------

  // What a step does to the reply its caller carries.
  lemma CarryShape(cfg: Config, s: State, i: nat, choice: Choice, t: State)
    requires i < |s.callers| == |t.callers| && Act(cfg, s, i, choice) == Some(t)
    ensures var c, d := s.callers[i].pc, t.callers[i].pc;
      && (Carries(d) && Carries(c) ==> d.reply == c.reply && (Waits(d) ==> Waits(c)))
      && (Carries(d) && !Carries(c) && !c.InFlight? && !c.WantWrite? ==>
            c.Fetching? && choice.Issue? && choice.token != "" && d == InFlight(Reply(choice.token, choice.expiresIn, s.clock)))
      && (Carries(d) && (c.InFlight? || c.WantWrite?) && PcOk(s, i, c) ==> Carries(c))
  {
  }

  // A reply caller k carries after the step it carried before, or has just been issued.
  ghost predicate CarriedFrom(s: State, e: Event, t: State, k: nat) {
    k < |t.callers| && Carries(t.callers[k].pc) ==>
      && k < |s.callers|
      && ((Carries(s.callers[k].pc) && t.callers[k].pc.reply == s.callers[k].pc.reply
            && (Waits(t.callers[k].pc) ==> Waits(s.callers[k].pc)))
          || (e.Step? && e.i == k && Issues(e) && e.choice.token != "" && s.callers[k].pc.Fetching?
               && t.callers[k].pc.reply.issuedAt == s.clock == t.clock))
  }

  lemma CarriedBefore(cfg: Config, s: State, e: Event, t: State, k: nat)
    requires Inv(cfg, s) && Next(cfg, s, e) == Some(t)
    ensures CarriedFrom(s, e, t, k)
  {
    if k < |t.callers| && Carries(t.callers[k].pc) {
      Growth(cfg, s, e, t);
      Shape(cfg, s, e, t);
      assert PcOk(s, k, s.callers[k].pc);
      if e.Step? && e.i == k {
        CarryShape(cfg, s, k, e.choice, t);
      }
    }
  }

  // Nothing carried or stored was issued in the future.
  ghost predicate IssuedByNow(s: State) {
    && (forall k :: 0 <= k < |s.callers| && Carries(s.callers[k].pc) ==> s.callers[k].pc.reply.issuedAt <= s.clock)
    && (forall p :: 0 <= p < |s.log| && s.log[p].Stored? ==> s.log[p].reply.issuedAt <= s.clock)
  }

  lemma NothingFromTheFuture(cfg: Config, s: State)
    requires Inv(cfg, s)
    ensures IssuedByNow(s)
  {
    forall k | 0 <= k < |s.callers| && Carries(s.callers[k].pc)
      ensures s.callers[k].pc.reply.issuedAt <= s.clock
    {
      assert PcOk(s, k, s.callers[k].pc);
    }
  }

  lemma RaceBefore(s: State, e: Event, t: State, i: nat, j: nat)
    requires Racing(t, i, j) && Guarded(s, e) && IssuedByNow(t)
    requires CarriedFrom(s, e, t, i) && CarriedFrom(s, e, t, j)
    ensures Racing(s, i, j)
  {
  }

  // Callers in the write section do not wait, and there is one at most.
  lemma CarrierWaits(s: State, i: nat, j: nat)
    requires Exclusion(s.callers) && i < |s.callers| && j < |s.callers| && i != j
    requires Carries(s.callers[i].pc) && s.callers[j].pc.Stamped?
    ensures Waits(s.callers[i].pc)
  {
  }

  // The log is as before, longer by an entry that is no store, or by the store of the caller that moved.
  ghost predicate LogStep(s: State, e: Event, t: State) {
    || t.log == s.log
    || (|t.log| == |s.log| + 1 && s.log <= t.log && !t.log[|s.log|].Stored?)
    || (e.Step? && e.i < |s.callers| == |t.callers| && s.callers[e.i].pc.Stamped? && !Carries(t.callers[e.i].pc)
         && t.log == s.log + [Stored(e.i, s.callers[e.i].pc.reply, s.callers[e.i].pc.at, s.callers[e.i].miss)])
  }

  lemma LogShape(cfg: Config, s: State, e: Event, t: State)
    requires Next(cfg, s, e) == Some(t)
    ensures LogStep(s, e, t)
  {
  }

  lemma LateBefore(s: State, e: Event, t: State, i: nat, p: nat)
    requires Late(t, i, p) && Exclusion(s.callers) && IssuedByNow(s)
    requires CarriedFrom(s, e, t, i) && LogStep(s, e, t)
    ensures Late(s, i, p) || (e.Step? && e.i < |s.callers| && Racing(s, i, e.i))
  {
    if p >= |s.log| {
      CarrierWaits(s, i, e.i);
    }
  }

  lemma OrderKept(s: State, e: Event, t: State)
    requires InOrder(s.log) && LogStep(s, e, t) && forall i: nat, p: nat :: !Late(s, i, p)
    ensures InOrder(t.log)
  {
    if |t.log| > |s.log| && t.log[|s.log|].Stored? {
      forall p | 0 <= p < |s.log| && s.log[p].Stored?
        ensures s.log[p].reply.issuedAt <= t.log[|s.log|].reply.issuedAt
      {
        assert !Late(s, e.i, p);
      }
    }
  }

  lemma CalmKept(cfg: Config, s: State, e: Event, t: State)
    requires Inv(cfg, s) && Calm(s) && InOrder(s.log) && Next(cfg, s, e) == Some(t) && Guarded(s, e)
    ensures Calm(t) && InOrder(t.log)
  {
    InvKept(cfg, s, e, t);
    NothingFromTheFuture(cfg, s);
    NothingFromTheFuture(cfg, t);
    LockExcludes(s);
    LogShape(cfg, s, e, t);
    forall i: nat, j: nat
      ensures !Racing(t, i, j)
    {
      CarriedBefore(cfg, s, e, t, i);
      CarriedBefore(cfg, s, e, t, j);
      if Racing(t, i, j) { RaceBefore(s, e, t, i, j); }
    }
    forall i: nat, p: nat
      ensures !Late(t, i, p)
    {
      CarriedBefore(cfg, s, e, t, i);
      if Late(t, i, p) { LateBefore(s, e, t, i, p); }
    }
    OrderKept(s, e, t);
  }

  lemma {:induction false} QuietKeepsCalm(cfg: Config, s: State, es: seq<Event>, t: State)
    requires Inv(cfg, s) && Calm(s) && InOrder(s.log) && NoIssue(es) && Run(cfg, s, es) == Some(t)
    ensures Calm(t) && InOrder(t.log)
  {
    if es != [] {
      var m := Run(cfg, s, es[..|es| - 1]).value;
      QuietKeepsCalm(cfg, s, es[..|es| - 1], m);
      RunKeeps(cfg, s, es[..|es| - 1], m);
      assert !Issues(es[|es| - 1]);
      CalmKept(cfg, m, es[|es| - 1], t);
    }
  }

  // ---------- a reply under way can be stored ----------

  // t has stored the reply caller j carried in s, and the others that waited wait still.
  ghost predicate HasStored(s: State, t: State, j: nat) {
    && j < |s.callers| == |t.callers| && Carries(s.callers[j].pc) && s.log <= t.log
    && (exists p :: |s.log| <= p < |t.log| && t.log[p].Stored? && t.log[p].reply == s.callers[j].pc.reply)
    && (forall k :: 0 <= k < |s.callers| && k != j && Waits(s.callers[k].pc) ==> t.callers[k].pc == s.callers[k].pc)
  }

  // A caller that keeps j from moving, or j itself.
  lemma Mover(s: State, j: nat) returns (i: nat)
    requires LockInv(s) && j < |s.callers| && Carries(s.callers[j].pc)
    ensures i < |s.callers| && (i == j || !Waits(s.callers[i].pc))
    ensures i != j ==> InRead(s.callers[i].pc) || InWrite(s.callers[i].pc)
    ensures i == j ==> s.callers[j].pc.WantWrite? ==> !s.writer && s.readers == 0
  {
    i := j;
    if s.callers[j].pc.WantWrite? {
      LockExcludes(s);
      if s.writer {
        i :| 0 <= i < |s.callers| && InWrite(s.callers[i].pc);
      } else if s.readers != 0 {
        i :| 0 <= i < |s.callers| && InRead(s.callers[i].pc);
      }
    }
  }

  // What a quiet step of that caller does.
  ghost predicate Towards(s: State, i: nat, t: State, j: nat) {
    && i < |s.callers| == |t.callers| && t.callers == s.callers[i := t.callers[i]] && s.log <= t.log
    && j < |s.callers| && Carries(s.callers[j].pc) && (i == j || !Waits(s.callers[i].pc))
    && (if i == j && s.callers[j].pc.Stamped?
        then t.log == s.log + [Stored(j, s.callers[j].pc.reply, s.callers[j].pc.at, s.callers[j].miss)]
        else Carries(t.callers[j].pc) && t.callers[j].pc.reply == s.callers[j].pc.reply)
  }

  lemma MoverMoves(cfg: Config, s: State, i: nat, j: nat) returns (t: State)
    requires CellInv(cfg, s) && i < |s.callers| && j < |s.callers| && Carries(s.callers[j].pc)
    requires i != j ==> InRead(s.callers[i].pc) || InWrite(s.callers[i].pc)
    requires i == j ==> s.callers[j].pc.WantWrite? ==> !s.writer && s.readers == 0
    ensures Next(cfg, s, Step(i, Quiet)) == Some(t) && Towards(s, i, t, j)
  {
    assert PcOk(s, i, s.callers[i].pc);
    t := Act(cfg, s, i, Quiet).value;
    Shape(cfg, s, Step(i, Quiet), t);
  }

  lemma StoredLater(s: State, i: nat, m: State, t: State, j: nat)
    requires Towards(s, i, m, j) && HasStored(m, t, j) && !(i == j && s.callers[j].pc.Stamped?)
    ensures HasStored(s, t, j)
  {
    var p :| |m.log| <= p < |t.log| && t.log[p].Stored? && t.log[p].reply == m.callers[j].pc.reply;
    assert |s.log| <= p < |t.log|;
  }

  lemma {:induction false} CanStore(cfg: Config, s: State, j: nat) returns (t: State)
    requires Inv(cfg, s) && j < |s.callers| && Carries(s.callers[j].pc)
    ensures Quietly(cfg, s, t) && HasStored(s, t, j)
    decreases Work(s.callers)
  {
    var i := Mover(s, j);
    var m := MoverMoves(cfg, s, i, j);
    if i == j && s.callers[j].pc.Stamped? {
      t := m;
      assert t.log[|s.log|].Stored?;
      QuietlyNowhere(cfg, m);
    } else {
      InvKept(cfg, s, Step(i, Quiet), m);
      RankFalls(cfg, s, i, Quiet, m);
      WorkUpdate(s.callers, i, m.callers[i]);
      t := CanStore(cfg, m, j);
      StoredLater(s, i, m, t, j);
    }
    QuietlyOn(cfg, s, Step(i, Quiet), m, t);
  }

  // ---------- exactly the safe states ----------

  /** Whatever is done without a new token, no older token replaces a newer one. */
  ghost predicate Secure(cfg: Config, s: State) {
    forall t :: Quietly(cfg, s, t) ==> InOrder(t.log)
  }

  lemma LateInsecure(cfg: Config, s: State, i: nat, p: nat)
    requires Inv(cfg, s) && Late(s, i, p)
    ensures !Secure(cfg, s)
  {
    var t := CanStore(cfg, s, i);
    var q :| |s.log| <= q < |t.log| && t.log[q].Stored? && t.log[q].reply == s.callers[i].pc.reply;
    assert t.log[p] == s.log[p];
    assert !InOrder(t.log);
  }

  lemma QuietlyKeeps(cfg: Config, s: State, t: State)
    requires Inv(cfg, s) && Quietly(cfg, s, t)
    ensures Inv(cfg, t)
  {
    var es :| NoIssue(es) && Run(cfg, s, es) == Some(t);
    RunKeeps(cfg, s, es, t);
  }

  lemma RacingInsecure(cfg: Config, s: State, i: nat, j: nat)
    requires Inv(cfg, s) && Racing(s, i, j)
    ensures !Secure(cfg, s)
  {
    var m := CanStore(cfg, s, j);
    var p :| |s.log| <= p < |m.log| && m.log[p].Stored? && m.log[p].reply == s.callers[j].pc.reply;
    assert m.callers[i].pc == s.callers[i].pc;
    QuietlyKeeps(cfg, s, m);
    assert Late(m, i, p);
    LateInsecure(cfg, m, i, p);
    var t :| Quietly(cfg, m, t) && !InOrder(t.log);
    QuietlyBoth(cfg, s, m, t);
  }

  /**
   From a state the newest token is certain to win over all that is under way exactly when
   no store has been out of order so far, no reply under way is older than a stored one, and
   no waiting reply is older than another one under way.
   */
  lemma SecureIffCalm(cfg: Config, s: State)
    requires Reachable(cfg, s)
    ensures Secure(cfg, s) <==> InOrder(s.log) && Calm(s)
  {
    ReachableInv(cfg, s);
    if Secure(cfg, s) {
      QuietlyNowhere(cfg, s);
      forall i: nat, j: nat
        ensures !Racing(s, i, j)
      {
        if Racing(s, i, j) { RacingInsecure(cfg, s, i, j); }
      }
      forall i: nat, p: nat
        ensures !Late(s, i, p)
      {
        if Late(s, i, p) { LateInsecure(cfg, s, i, p); }
      }
    } else if InOrder(s.log) && Calm(s) {
      var t :| Quietly(cfg, s, t) && !InOrder(t.log);
      var es :| NoIssue(es) && Run(cfg, s, es) == Some(t);
      QuietKeepsCalm(cfg, s, es, t);
    }
  }

  // ---------- exactly the safe runs ----------

  // At each issue of the run nobody else waited with a usable reply from an earlier instant.
  ghost predicate OneAtATime(cfg: Config, s: State, es: seq<Event>) {
    forall k :: 0 <= k < |es| && Run(cfg, s, es[..k]).Some? ==> Guarded(Run(cfg, s, es[..k]).value, es[k])
  }

  // The newest token is certain to win at every point of the run.
  ghost predicate AlwaysSecure(cfg: Config, s: State, es: seq<Event>) {
    forall k :: 0 <= k <= |es| && Run(cfg, s, es[..k]).Some? ==> Secure(cfg, Run(cfg, s, es[..k]).value)
  }

  lemma RunPrefix(cfg: Config, s: State, es: seq<Event>, k: nat)
    requires k <= |es| && Run(cfg, s, es).Some?
    ensures Run(cfg, s, es[..k]).Some?
  {
    if k < |es| {
      assert es[..|es| - 1][..k] == es[..k];
      RunPrefix(cfg, s, es[..|es| - 1], k);
    } else {
      assert es[..k] == es;
    }
  }

  // An issue that is not guarded starts a race.
  lemma UnguardedRaces(cfg: Config, s: State, e: Event, t: State) returns (i: nat)
    requires Next(cfg, s, e) == Some(t) && !Guarded(s, e) && IssuedByNow(s)
    ensures e.Step? && Racing(t, i, e.i)
  {
    i :| i < |s.callers| && Waits(s.callers[i].pc) && s.callers[i].pc.reply.issuedAt != s.clock;
  }

  lemma {:induction false} OrderedRun(cfg: Config, s: State, es: seq<Event>, t: State)
    requires Inv(cfg, s) && Calm(s) && InOrder(s.log) && Run(cfg, s, es) == Some(t) && OneAtATime(cfg, s, es)
    ensures Calm(t) && InOrder(t.log)
  {
    if es != [] {
      var init := es[..|es| - 1];
      var m := Run(cfg, s, init).value;
      assert forall k :: 0 <= k < |init| ==> init[..k] == es[..k] && init[k] == es[k];
      OrderedRun(cfg, s, init, m);
      RunKeeps(cfg, s, init, m);
      CalmKept(cfg, m, es[|es| - 1], t);
    }
  }

  lemma UnguardedInsecure(cfg: Config, s: State, es: seq<Event>, k: nat)
    requires Inv(cfg, s) && k < |es| && Run(cfg, s, es[..k]).Some? && Run(cfg, s, es[..k + 1]).Some?
    requires !Guarded(Run(cfg, s, es[..k]).value, es[k])
    ensures !Secure(cfg, Run(cfg, s, es[..k + 1]).value)
  {
    var m, t := Run(cfg, s, es[..k]).value, Run(cfg, s, es[..k + 1]).value;
    assert es[..k + 1][..k] == es[..k];
    RunKeeps(cfg, s, es[..k], m);
    NothingFromTheFuture(cfg, m);
    var i := UnguardedRaces(cfg, m, es[k], t);
    InvKept(cfg, m, es[k], t);
    RacingInsecure(cfg, t, i, es[k].i);
  }

  lemma GuardedSecure(cfg: Config, n: nat, clock: Time, es: seq<Event>, k: nat)
    requires k <= |es| && Run(cfg, Init(n, clock), es[..k]).Some? && OneAtATime(cfg, Init(n, clock), es)
    ensures Secure(cfg, Run(cfg, Init(n, clock), es[..k]).value)
  {
    InitInv(cfg, n, clock);
    assert forall l :: 0 <= l < k ==> es[..k][..l] == es[..l] && es[..k][l] == es[l];
    var t := Run(cfg, Init(n, clock), es[..k]).value;
    OrderedRun(cfg, Init(n, clock), es[..k], t);
    SecureIffCalm(cfg, t);
  }

  /**
   The newest token is certain to win all through a run exactly when, at each issue of the
   run, nobody else waits with a usable reply issued earlier.
   */
  lemma SecureRuns(cfg: Config, n: nat, clock: Time, es: seq<Event>)
    requires Run(cfg, Init(n, clock), es).Some?
    ensures AlwaysSecure(cfg, Init(n, clock), es) <==> OneAtATime(cfg, Init(n, clock), es)
  {
    var s := Init(n, clock);
    InitInv(cfg, n, clock);
    if OneAtATime(cfg, s, es) {
      forall k | 0 <= k <= |es| && Run(cfg, s, es[..k]).Some?
        ensures Secure(cfg, Run(cfg, s, es[..k]).value)
      {
        GuardedSecure(cfg, n, clock, es, k);
      }
    } else {
      var k :| 0 <= k < |es| && Run(cfg, s, es[..k]).Some? && !Guarded(Run(cfg, s, es[..k]).value, es[k]);
      RunPrefix(cfg, s, es, k + 1);
      UnguardedInsecure(cfg, s, es, k);
    }
  }

  /** In such a run the stores are in the order of issue. */
  lemma NewestWins(cfg: Config, n: nat, clock: Time, es: seq<Event>, t: State)
    requires Run(cfg, Init(n, clock), es) == Some(t) && OneAtATime(cfg, Init(n, clock), es)
    ensures InOrder(t.log)
  {
    InitInv(cfg, n, clock);
    OrderedRun(cfg, Init(n, clock), es, t);
  }

  // ---------- exactly how many callers are safe ----------

  // Two callers fetch at two instants, whatever their replies are.
  lemma RaceFrom(cfg: Config, n: nat) returns (t: State)
    requires n >= 2
    ensures Reachable(cfg, t) && |t.callers| == n && Racing(t, 0, 1)
  {
    var s := Init(n, 0);
    assert Run(cfg, s, []) == Some(s);
    t := Fetches(cfg, s, s, 0, Reply("a", 1, 0));
    LeadsOn(cfg, s, t, Advance(1));
    t := Next(cfg, t, Advance(1)).value;
    t := Fetches(cfg, s, t, 1, Reply("b", 1, 1));
    LeadsReachable(cfg, s, t);
  }

  lemma {:induction false} CallersStay(cfg: Config, s: State, es: seq<Event>, t: State)
    requires Run(cfg, s, es) == Some(t)
    ensures |t.callers| == |s.callers|
  {
    if es != [] {
      var m := Run(cfg, s, es[..|es| - 1]).value;
      CallersStay(cfg, s, es[..|es| - 1], m);
      Growth(cfg, m, es[|es| - 1], t);
    }
  }

  lemma AloneOneAtATime(cfg: Config, n: nat, clock: Time, es: seq<Event>)
    requires n <= 1
    ensures OneAtATime(cfg, Init(n, clock), es)
  {
    forall k | 0 <= k < |es| && Run(cfg, Init(n, clock), es[..k]).Some?
      ensures Guarded(Run(cfg, Init(n, clock), es[..k]).value, es[k])
    {
      CallersStay(cfg, Init(n, clock), es[..k], Run(cfg, Init(n, clock), es[..k]).value);
    }
  }

  /** With n callers the newest token always wins exactly when there is but one. */
  lemma NewestWinsAlone(cfg: Config, n: nat)
    ensures (forall s :: Reachable(cfg, s) && |s.callers| == n ==> InOrder(s.log)) <==> n <= 1
  {
    if n >= 2 {
      var s := RaceFrom(cfg, n);
      ReachableInv(cfg, s);
      RacingInsecure(cfg, s, 0, 1);
      var t :| Quietly(cfg, s, t) && !InOrder(t.log);
      QuietlyReachable(cfg, s, t);
      var es :| NoIssue(es) && Run(cfg, s, es) == Some(t);
      CallersStay(cfg, s, es, t);
    } else {
      forall s | Reachable(cfg, s) && |s.callers| == n
        ensures InOrder(s.log)
      {
        var k: nat, clock: Time, es :| Run(cfg, Init(k, clock), es) == Some(s);
        CallersStay(cfg, Init(k, clock), es, s);
        AloneOneAtATime(cfg, k, clock, es);
        NewestWins(cfg, k, clock, es, s);
      }
    }
  }

  /** By how much a newer token can be undone: at most by the time the older one took to be stored. */
  lemma OlderByDelay(cfg: Config, s: State, p: nat, q: nat)
    requires Reachable(cfg, s) && p < q < |s.log| && s.log[p].Stored? && s.log[q].Stored?
    ensures s.log[p].reply.issuedAt - s.log[q].reply.issuedAt <= s.log[q].at - s.log[q].reply.issuedAt
  {
    ReachableInv(cfg, s);
  }
}
