/** The fetch-rate bound is the best one: a run for every number of callers and every window. */
module TokenAttained {
  import opened Clock
  import opened Wrappers
  import opened TokenMachine
  import opened TokenInvariant
  import opened TokenRate
  import opened TokenSchedules

  // Everybody is out, and the cache sends everybody to the endpoint.
  ghost predicate Round(s: State, n: nat) {
    && |s.callers| == n && (forall i :: 0 <= i < n ==> s.callers[i].pc == Idle)
    && !s.writer && s.readers == 0 && (s.token == "" || s.expiry <= s.clock)
  }

  // All callers have a token issued before any of them stores it.
  lemma AllFetch(cfg: Config, s0: State, s: State, n: nat, r: Reply) returns (t: State)
    requires Leads(cfg, s0, s) && Round(s, n) && r.issuedAt == s.clock
    ensures Leads(cfg, s0, t) && t.log == s.log && t.clock == s.clock && |t.callers| == n
    ensures !t.writer && t.readers == 0 && forall i :: 0 <= i < n ==> t.callers[i].pc == InFlight(r)
  {
    t := s;
    for k := 0 to n
      invariant Leads(cfg, s0, t) && t == s.(issued := t.issued, callers := t.callers) && |t.callers| == n
      invariant forall i :: 0 <= i < n ==> t.callers[i].pc == if i < k then InFlight(r) else Idle
    {
      t := Fetches(cfg, s0, t, k, r);
    }
  }

  lemma StoresNext(log: seq<Entry>, e: Entry, from: Time, length: nat)
    ensures Stores(log + [e], from, length) == Stores(log, from, length) + (if InWindow(e, from, length) then 1 else 0)
  {
    assert (log + [e])[..|log|] == log;
  }

  // Then all of them store it.
  lemma AllStore(cfg: Config, s0: State, s: State, n: nat, r: Reply, from: Time, length: nat) returns (t: State)
    requires Leads(cfg, s0, s) && |s.callers| == n && n > 0 && r.token != "" && from <= s.clock <= from + length
    requires !s.writer && s.readers == 0 && forall i :: 0 <= i < n ==> s.callers[i].pc == InFlight(r)
    requires Grants(cfg, s.log, Lifetime(cfg, r))
    ensures Leads(cfg, s0, t) && t.clock == s.clock && |t.callers| == n && (forall i :: 0 <= i < n ==> t.callers[i].pc == Idle)
    ensures !t.writer && t.readers == 0 && t.expiry == s.clock + Lifetime(cfg, r)
    ensures Grants(cfg, t.log, Lifetime(cfg, r)) && Stores(t.log, from, length) == Stores(s.log, from, length) + n
  {
    t := s;
    for k := 0 to n
      invariant Leads(cfg, s0, t) && t.clock == s.clock && |t.callers| == n && !t.writer && t.readers == 0
      invariant forall i :: 0 <= i < n ==> t.callers[i].pc == if i < k then Idle else InFlight(r)
      invariant k > 0 ==> t.expiry == s.clock + Lifetime(cfg, r)
      invariant Grants(cfg, t.log, Lifetime(cfg, r)) && Stores(t.log, from, length) == Stores(s.log, from, length) + k
    {
      StoresNext(t.log, Stored(k, r, t.clock, t.callers[k].miss), from, length);
      t := StoresNow(cfg, s0, t, k, r);
    }
  }

  // Everybody is out, k rounds of n stores are in the window, and the last was made now.
  ghost predicate Filled(cfg: Config, s: State, n: nat, k: nat, life: int, from: Time, length: nat) {
    && |s.callers| == n && (forall i :: 0 <= i < n ==> s.callers[i].pc == Idle) && !s.writer && s.readers == 0
    && s.expiry == s.clock + life && Grants(cfg, s.log, life) && Stores(s.log, from, length) == n * k
  }

  lemma OneRound(cfg: Config, s0: State, s: State, n: nat, r: Reply, k: nat, from: Time, length: nat) returns (t: State)
    requires Leads(cfg, s0, s) && Round(s, n) && n > 0 && r.token != "" && from <= s.clock <= from + length
    requires Grants(cfg, s.log, Lifetime(cfg, r)) && Stores(s.log, from, length) == n * k
    ensures Leads(cfg, s0, t) && t.clock == s.clock && Filled(cfg, t, n, k + 1, Lifetime(cfg, r), from, length)
  {
    var now := r.(issuedAt := s.clock);
    assert Lifetime(cfg, now) == Lifetime(cfg, r);
    t := AllFetch(cfg, s0, s, n, now);
    t := AllStore(cfg, s0, t, n, now, from, length);
    assert n * (k + 1) == n * k + n;
  }

  lemma NextRound(cfg: Config, s0: State, s: State, n: nat, r: Reply, k: nat, life: int, from: Time, length: nat) returns (t: State)
    requires Leads(cfg, s0, s) && Filled(cfg, s, n, k, life, from, length) && n > 0 && r.token != ""
    requires life == Lifetime(cfg, r) > 0 && from <= s.clock && s.clock + life <= from + length
    ensures Leads(cfg, s0, t) && t.clock == s.clock + life && Filled(cfg, t, n, k + 1, life, from, length)
  {
    LeadsOn(cfg, s0, s, Advance(life));
    t := OneRound(cfg, s0, s.(clock := s.clock + life), n, r, k, from, length);
  }

  lemma AllRounds(cfg: Config, n: nat, r: Reply, life: int, from: Time, length: nat) returns (s: State)
    requires n > 0 && r.token != "" && life == Lifetime(cfg, r) > 0
    ensures Leads(cfg, Init(n, from), s) && Filled(cfg, s, n, length / life + 1, life, from, length)
  {
    var s0 := Init(n, from);
    assert Run(cfg, s0, []) == Some(s0);
    s := OneRound(cfg, s0, s0, n, r, 0, from, length);
    for k := 0 to length / life
      invariant Leads(cfg, s0, s) && s.clock == from + k * life && Filled(cfg, s, n, k + 1, life, from, length)
    {
      InWindowStill(k, length, life);
      s := NextRound(cfg, s0, s, n, r, k + 1, life, from, length);
    }
  }

  /**
   For every reply with a positive lifetime L, every number of callers and every window there
   is a run in which all stored replies grant L and the window holds as many stores as
   FetchRate admits: the callers are sent off together, once per lifetime.
   */
  lemma RateAttained(cfg: Config, n: nat, r: Reply, from: Time, length: nat) returns (s: State)
    requires r.token != "" && Lifetime(cfg, r) > 0
    ensures Reachable(cfg, s) && |s.callers| == n && Grants(cfg, s.log, Lifetime(cfg, r))
    ensures Stores(s.log, from, length) == n * (length / Lifetime(cfg, r) + 1)
  {
    s := Init(n, from);
    assert Run(cfg, s, []) == Some(s);
    if n > 0 {
      s := AllRounds(cfg, n, r, Lifetime(cfg, r), from, length);
    }
    LeadsReachable(cfg, Init(n, from), s);
  }

  // Whatever the buffer, some reply has a positive lifetime.
  lemma SomeReplyLasts(cfg: Config) returns (r: Reply)
    ensures r.token != "" && Lifetime(cfg, r) > 0
  {
    r := Reply("a", if cfg.buffer > 0 then 0 else 1, 0);
  }

  lemma InWindowStill(k: nat, length: nat, life: int)
    requires life > 0 && k < length / life
    ensures (k + 1) * life == k * life + life <= length
  {
    var q := length / life;
    var d := q - (k + 1);
    Distribute(k + 1, d, life);
    Distribute(k, 1, life);
  }

  lemma Distribute(a: nat, b: nat, c: nat)
    ensures (a + b) * c == a * c + b * c && b * c >= 0
  {
  }
}
