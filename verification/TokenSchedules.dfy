/** Schedules built by hand: what the machine can be made to do. */
module TokenSchedules {
  import opened Clock
  import opened Wrappers
  import opened TokenMachine
  import opened TokenInvariant

  // ---------- schedules in which no token is issued ----------

  predicate Issues(e: Event) {
    e.Step? && e.choice.Issue?
  }

  ghost predicate NoIssue(es: seq<Event>) {
    forall k :: 0 <= k < |es| ==> !Issues(es[k])
  }

  // t can be reached from s without a new token.
  ghost predicate Quietly(cfg: Config, s: State, t: State) {
    exists es :: NoIssue(es) && Run(cfg, s, es) == Some(t)
  }

  lemma RunOne(cfg: Config, s: State, e: Event)
    ensures Run(cfg, s, [e]) == Next(cfg, s, e)
  {
    assert [e][..0] == [];
  }

  lemma QuietlyNowhere(cfg: Config, s: State)
    ensures Quietly(cfg, s, s)
  {
    assert NoIssue([]) && Run(cfg, s, []) == Some(s);
  }

  lemma QuietlyOn(cfg: Config, s: State, e: Event, m: State, t: State)
    requires Next(cfg, s, e) == Some(m) && !Issues(e) && Quietly(cfg, m, t)
    ensures Quietly(cfg, s, t)
  {
    var es :| NoIssue(es) && Run(cfg, m, es) == Some(t);
    RunOne(cfg, s, e);
    RunAppend(cfg, s, [e], es);
    assert NoIssue([e] + es);
  }

  lemma QuietlyBoth(cfg: Config, s: State, m: State, t: State)
    requires Quietly(cfg, s, m) && Quietly(cfg, m, t)
    ensures Quietly(cfg, s, t)
  {
    var es :| NoIssue(es) && Run(cfg, s, es) == Some(m);
    var fs :| NoIssue(fs) && Run(cfg, m, fs) == Some(t);
    RunAppend(cfg, s, es, fs);
    assert NoIssue(es + fs);
  }

  lemma QuietlyReachable(cfg: Config, s: State, t: State)
    requires Reachable(cfg, s) && Quietly(cfg, s, t)
    ensures Reachable(cfg, t)
  {
    var es :| NoIssue(es) && Run(cfg, s, es) == Some(t);
    ReachableOnward(cfg, s, es);
  }

  // ---------- one step at a time ----------

  ghost predicate Leads(cfg: Config, s: State, t: State) {
    exists es :: Run(cfg, s, es) == Some(t)
  }

  lemma LeadsOn(cfg: Config, s: State, m: State, e: Event)
    requires Leads(cfg, s, m) && Next(cfg, m, e).Some?
    ensures Leads(cfg, s, Next(cfg, m, e).value)
  {
    var es :| Run(cfg, s, es) == Some(m);
    assert (es + [e])[..|es|] == es;
    assert Run(cfg, s, es + [e]) == Next(cfg, m, e);
  }

  lemma LeadsReachable(cfg: Config, s: State, t: State)
    requires Reachable(cfg, s) && Leads(cfg, s, t)
    ensures Reachable(cfg, t)
  {
    var es :| Run(cfg, s, es) == Some(t);
    ReachableOnward(cfg, s, es);
  }

  // Where caller i is after k more steps from Reading, given that the cache is stale now.
  function Missing(s: State, k: nat): Pc {
    if s.token == "" then (if k == 0 then Reading else if k == 1 then Missed else Fetching)
    else (if k == 0 then Reading else if k == 1 then TokenSeen else if k == 2 then ClockRead(s.clock)
          else if k == 3 then Missed else Fetching)
  }

  // Caller i begins a call, finds the cache stale and goes to the endpoint.
  lemma GoesToFetch(cfg: Config, s0: State, s: State, i: nat) returns (t: State)
    requires Leads(cfg, s0, s) && i < |s.callers| && s.callers[i].pc == Idle
    requires !s.writer && (s.token == "" || s.expiry <= s.clock)
    ensures Leads(cfg, s0, t)
    ensures t == s.(callers := s.callers[i := Caller(Fetching, |s.log|, |s.returned|, Miss(|s.log|, s.clock))])
  {
    var last := if s.token == "" then 1 else 3;
    LeadsOn(cfg, s0, s, Start(i));
    t := Next(cfg, s, Start(i)).value;
    LeadsOn(cfg, s0, t, Step(i, Quiet));
    t := Next(cfg, t, Step(i, Quiet)).value;
    for k := 0 to last + 1
      invariant Leads(cfg, s0, t)
      invariant t == s.(callers := t.callers, readers := s.readers + (if k <= last then 1 else 0))
      invariant t.callers == s.callers[i :=
                  Caller(Missing(s, k), |s.log|, |s.returned|,
                         if k < last then s.callers[i].miss else Miss(|s.log|, s.clock))]
    {
      LeadsOn(cfg, s0, t, Step(i, Quiet));
      t := Next(cfg, t, Step(i, Quiet)).value;
    }
  }

  // Caller i finds the cache stale and has the endpoint issue a token now.
  lemma Fetches(cfg: Config, s0: State, s: State, i: nat, r: Reply) returns (t: State)
    requires Leads(cfg, s0, s) && i < |s.callers| && s.callers[i].pc == Idle && r.issuedAt == s.clock
    requires !s.writer && (s.token == "" || s.expiry <= s.clock)
    ensures Leads(cfg, s0, t)
    ensures t == s.(issued := s.issued + {r},
                    callers := s.callers[i := Caller(InFlight(r), |s.log|, |s.returned|, Miss(|s.log|, s.clock))])
  {
    t := GoesToFetch(cfg, s0, s, i);
    LeadsOn(cfg, s0, t, Step(i, Issue(r.token, r.expiresIn)));
    t := Next(cfg, t, Step(i, Issue(r.token, r.expiresIn))).value;
  }

  // Caller i brings the reply it has in flight up to its clock reading inside the write section.
  lemma Stamps(cfg: Config, s0: State, s: State, i: nat, r: Reply) returns (t: State)
    requires Leads(cfg, s0, s) && i < |s.callers| && s.callers[i].pc == InFlight(r) && r.token != ""
    requires !s.writer && s.readers == 0
    ensures Leads(cfg, s0, t)
    ensures t == MoveTo(s, i, Stamped(r, s.clock)).(writer := true, token := r.token)
  {
    t := s;
    for k := 0 to 4
      invariant Leads(cfg, s0, t)
      invariant t == MoveTo(s, i, [InFlight(r), WantWrite(r), Writing(r), TokenWritten(r), Stamped(r, s.clock)][k]).(
                     writer := 2 <= k, token := t.token)
      invariant t.token == if k < 3 then s.token else r.token
    {
      LeadsOn(cfg, s0, t, Step(i, Quiet));
      t := Next(cfg, t, Step(i, Quiet)).value;
    }
  }

  // Caller i stores the reply it has in flight and returns.
  lemma StoresNow(cfg: Config, s0: State, s: State, i: nat, r: Reply) returns (t: State)
    requires Leads(cfg, s0, s) && i < |s.callers| && s.callers[i].pc == InFlight(r) && r.token != ""
    requires !s.writer && s.readers == 0
    ensures Leads(cfg, s0, t)
    ensures t.log == s.log + [Stored(i, r, s.clock, s.callers[i].miss)] && t.expiry == s.clock + Lifetime(cfg, r)
    ensures t.token == r.token && t.clock == s.clock
    ensures !t.writer && t.readers == 0 && t.callers == s.callers[i := s.callers[i].(pc := Idle)]
  {
    t := Stamps(cfg, s0, s, i, r);
    for k := 0 to 3
      invariant Leads(cfg, s0, t) && t.clock == s.clock && t.readers == 0 && t.writer == (k < 3) && t.token == r.token
      invariant t.callers == s.callers[i := s.callers[i].(pc :=
                  [Stamped(r, s.clock), ExpiryWritten(|s.log|), StoreRead(r.token, |s.log|), Idle][k])]
      invariant t.log == if k < 1 then s.log else s.log + [Stored(i, r, s.clock, s.callers[i].miss)]
      invariant k >= 1 ==> t.expiry == s.clock + Lifetime(cfg, r)
    {
      LeadsOn(cfg, s0, t, Step(i, Quiet));
      t := Next(cfg, t, Step(i, Quiet)).value;
    }
  }
}
