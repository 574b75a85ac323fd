/**
 The repair of a version 2 webhook registration's duration and expiration (routes.go,
 fixV2Duration). The two validators come from a library; any pair that keeps the limits
 documented in tr1d1um.yaml will do.
 */
module TtlRepair {
  import opened Clock
  import opened Wrappers

  // None is the zero time, which is how an unset `until` reads.
  datatype Registration = Registration(duration: int, until: Option<Time>)

  datatype Warning = DurationUnset | DurationInvalid | UntilInvalid

  // durationOk(d) is ValidateDuration for a registration without `until`; untilOk(now, u) is CheckUntil.
  datatype Limits = Limits(max: int, durationOk: int -> bool, untilOk: (Time, Time) -> bool)

  predicate UntilOk(l: Limits, now: Time, u: Time) {
    l.untilOk(now, u)
  }

  /**
   What the documentation says of the limits: max itself is allowed, and waiting never makes
   a time too late. A negative max is refused when the middleware is built.
   */
  ghost predicate Documented(l: Limits) {
    && l.max >= 0
    && (l.max > 0 ==> l.durationOk(l.max))
    && (forall now: Time, later: Time, u: Time :: now <= later && UntilOk(l, now, u) ==> UntilOk(l, later, u))
  }

  /** The documented limits themselves: at most max, and no later than now + max + jitter. */
  function YamlLimits(max: int, jitter: int): Limits {
    Limits(max, d => d <= max, (now, u) => u <= now + max + jitter)
  }

  lemma YamlDocumented(max: nat, jitter: nat)
    ensures Documented(YamlLimits(max, jitter))
  {
  }

  // ---------- the repair ----------

  predicate Acceptable(l: Limits, now: Time, r: Registration) {
    if r.until.Some? then UntilOk(l, now, r.until.value) else r.duration != 0 && l.durationOk(r.duration)
  }

  function Repaired(l: Limits, now: Time, r: Registration): (Registration, seq<Warning>) {
    if Acceptable(l, now, r) then (r, [])
    else (Registration(l.max, None),
          [if r.until.Some? then UntilInvalid else if r.duration == 0 then DurationUnset else DurationInvalid])
  }

  class V2Request {
    var duration: int
    var until: Option<Time>
    var warnings: seq<Warning>

    constructor (r: Registration)
      ensures Contents() == r && warnings == []
    {
      duration, until, warnings := r.duration, r.until, [];
    }

    function Contents(): Registration
      reads this
    {
      Registration(duration, until)
    }

    method FixDuration(l: Limits, now: Time)
      modifies this
      ensures Contents() == Repaired(l, now, old(Contents())).0
      ensures warnings == old(warnings) + Repaired(l, now, old(Contents())).1
      ensures old(until.None? && duration == 0) ==>
        until == None && duration == l.max && warnings == old(warnings) + [DurationUnset]
      ensures old(until.None? && duration != 0 && !l.durationOk(duration)) ==>
        until == None && duration == l.max && warnings == old(warnings) + [DurationInvalid]
      ensures old(until.Some? && !l.untilOk(now, until.value)) ==>
        until == None && duration == l.max && warnings == old(warnings) + [UntilInvalid]
      ensures old(if until.None? then duration != 0 && l.durationOk(duration) else l.untilOk(now, until.value)) ==>
        until == old(until) && duration == old(duration) && warnings == old(warnings)
      ensures l.max > 0 ==> until.Some? || duration != 0
    {
      if until.None? {
        if duration == 0 {
          duration := l.max;
          warnings := warnings + [DurationUnset];
        } else {
          var valid := l.durationOk(duration);
          if !valid {
            duration := l.max;
            warnings := warnings + [DurationInvalid];
          }
        }
      } else {
        var valid := l.untilOk(now, until.value);
        if !valid {
          until := None;
          duration := l.max;
          warnings := warnings + [UntilInvalid];
        }
      }
    }
  }

  /** With the documented limits nothing forwarded outlives them, whatever was asked for. */
  lemma WithinLimits(max: nat, jitter: nat, now: Time, r: Registration)
    ensures var fixed := Repaired(YamlLimits(max, jitter), now, r).0;
      if fixed.until.Some? then fixed.until.value <= now + max + jitter else fixed.duration <= max
    ensures r.until.Some? && r.until.value <= now + max + jitter ==> Repaired(YamlLimits(max, jitter), now, r) == (r, [])
    ensures r.until.None? && r.duration != 0 && r.duration <= max ==> Repaired(YamlLimits(max, jitter), now, r) == (r, [])
  {
  }

  // ---------- the normal form ----------

  /**
   What is forwarded has an accepted `until` that was left alone, or no `until` and an
   accepted duration or Max; there is one warning exactly when something was changed or
   Max stood in for itself.
   */
  lemma RepairNormal(l: Limits, now: Time, r: Registration)
    ensures var (fixed, warnings) := Repaired(l, now, r);
      && (fixed.until.Some? ==> fixed == r && UntilOk(l, now, fixed.until.value))
      && (fixed.until.None? ==> fixed.duration == l.max || (fixed == r && l.durationOk(fixed.duration)))
      && (warnings == [] <==> Acceptable(l, now, r))
      && |warnings| <= 1
  {
  }

  /** The result of a repair is left unchanged by every later repair, which warns again only for Max = 0. */
  lemma RepairStable(l: Limits, now: Time, later: Time, r: Registration)
    requires Documented(l) && now <= later
    ensures var (fixed, warnings) := Repaired(l, now, r);
      && Repaired(l, later, fixed).0 == fixed
      && (Repaired(l, later, fixed).1 == [] <==> l.max > 0 || warnings == [])
  {
  }

  /** A registration is a fixed point of the repair, at once and from then on, iff it is a possible outcome of one. */
  lemma FixedPoints(l: Limits, now: Time, r: Registration)
    requires Documented(l)
    ensures (forall later: Time :: now <= later ==> Repaired(l, later, r).0 == r) <==> r == Repaired(l, now, r).0
  {
  }
}
