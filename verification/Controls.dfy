/** Work controls: outbound permits, new-origin admission and per-resource circuits, updated in place. */
module Controls {
  import opened Wrappers
  import opened Fetch
  import opened Resource
  import opened Representations
  import opened Circuits
  import opened Origins
  import opened Loads

  datatype Limits = Limits(outboundFetches: nat, origins: OriginLimits)

  datatype CircuitTransition = Opened | Reclosed

  /** The rate limiters' answers for one fetch, and whether the origin has a limiter already. */
  datatype Gates = Gates(global: bool, originKnown: bool, origin: bool)

  function Find<K, V>(m: map<K, V>, key: K): Option<V> {
    if key in m then Some(m[key]) else None
  }

  /** Why a fetch is not let through, if it is not. */
  function GateError(
    limits: Limits, permits: nat, seen: map<string, nat>, origin: string, gates: Gates, now: nat)
    : Option<FetchErrorKind>
  {
    if permits == 0 then Some(Overloaded)
    else if !gates.global then Some(RateLimited)
    else if !gates.originKnown && !Admits(limits.origins, seen, origin, now) then Some(RateLimited)
    else if !gates.origin then Some(RateLimited)
    else None
  }

  /** The new-origin map is only consulted past the permit and the global limiter. */
  function SeenAfterGate(
    limits: Limits, permits: nat, seen: map<string, nat>, origin: string, gates: Gates, now: nat)
    : map<string, nat>
  {
    if permits > 0 && gates.global && !gates.originKnown
    then AfterAsk(limits.origins, seen, origin, now)
    else seen
  }

  class WorkControls {
    const limits: Limits
    var outbound: nat
    var newOrigins: map<string, nat>
    var circuits: map<ResourceKey, TimedCircuit>

    constructor (limits: Limits)
      ensures this.limits == limits && outbound == limits.outboundFetches
      ensures newOrigins == map[] && circuits == map[]
    {
      this.limits := limits;
      outbound := limits.outboundFetches;
      newOrigins := map[];
      circuits := map[];
    }

    /** Fetches or creates the circuit, which also marks it as used. */
    method UseCircuit(key: ResourceKey, now: nat) returns (state: Circuit)
      modifies `circuits
      ensures state == CircuitAt(old(Find(circuits, key)), now)
      ensures circuits == old(circuits)[key := TimedCircuit(state, now)]
    {
      state := CircuitAt(Find(circuits, key), now);
      circuits := circuits[key := TimedCircuit(state, now)];
    }

    method CheckCircuit(key: ResourceKey, now: nat) returns (error: Option<FetchError>)
      modifies `circuits
      ensures var c := CircuitAt(old(Find(circuits, key)), now);
              && error == (if IsOpen(c, now) then Some(Plain(CircuitOpen)) else None)
              && circuits == old(circuits)[key := TimedCircuit(c, now)]
    {
      var state := UseCircuit(key, now);
      if state.openUntil.Some? && state.openUntil.value > now {
        return Some(Plain(CircuitOpen));
      }
      error := None;
    }

    method Success(key: ResourceKey, now: nat) returns (transition: Option<CircuitTransition>)
      modifies `circuits
      ensures circuits == old(circuits)[key := TimedCircuit(CLOSED, now)]
      ensures var c := CircuitAt(old(Find(circuits, key)), now);
              transition.Some? <==> c.failures > 0 || c.openUntil.Some?
      ensures transition.Some? ==> transition.value == Reclosed
    {
      var state := UseCircuit(key, now);
      transition := if state.failures > 0 || state.openUntil.Some? then Some(Reclosed) else None;
      circuits := circuits[key := TimedCircuit(CLOSED, now)];
    }

    method FailureBackoff(key: ResourceKey, retryAfter: Option<nat>, now: nat)
      returns (backoff: nat, transition: Option<CircuitTransition>)
      modifies `circuits
      ensures var c := AfterFailure(CircuitAt(old(Find(circuits, key)), now), now);
              && circuits == old(circuits)[key := TimedCircuit(c, now)]
              && backoff == Backoff(c.failures, retryAfter)
              && (transition == Some(Opened) <==> c.failures >= 3)
              && (transition.Some? ==> IsOpen(c, now))
    {
      var state := UseCircuit(key, now);
      state := state.(failures := SaturatingInc(state.failures));
      var exponent := Min(if state.failures > 0 then state.failures - 1 else 0, 6);
      backoff := Min(MIN_FAILURE_BACKOFF * Shift(exponent), MAX_FAILURE_BACKOFF);
      backoff := Max(backoff, Min(if retryAfter.Some? then retryAfter.value else 0, MAX_FAILURE_BACKOFF));
      if state.failures >= 3 {
        var openFor := Min(30_000 * Shift(Min(state.opens, 4)), MAX_FAILURE_BACKOFF);
        state := state.(opens := SaturatingInc(state.opens));
        state := state.(openUntil := Some(now + openFor));
        transition := Some(Opened);
      } else {
        transition := None;
      }
      circuits := circuits[key := TimedCircuit(state, now)];
    }

    method CircuitRemaining(key: ResourceKey, now: nat) returns (remaining: nat)
      modifies `circuits
      ensures var c := CircuitAt(old(Find(circuits, key)), now);
              && remaining == Remaining(c, now)
              && circuits == old(circuits)[key := TimedCircuit(c, now)]
    {
      var state := UseCircuit(key, now);
      remaining := Remaining(state, now);
    }

    /** A permit is taken first; every refusal after that gives it back. */
    method BeginFetch(origin: string, gates: Gates, now: nat) returns (error: Option<FetchError>)
      modifies `outbound, `newOrigins
      ensures error.None? ==> old(outbound) > 0 && outbound == old(outbound) - 1
      ensures error.Some? ==> outbound == old(outbound)
      ensures var kind := GateError(limits, old(outbound), old(newOrigins), origin, gates, now);
              error == if kind.Some? then Some(Plain(kind.value)) else None
      ensures error.None? <==>
              && old(outbound) > 0 && gates.global && gates.origin
              && (gates.originKnown || Admits(limits.origins, old(newOrigins), origin, now))
      ensures error == Some(Plain(Overloaded)) <==> old(outbound) == 0
      ensures newOrigins == SeenAfterGate(limits, old(outbound), old(newOrigins), origin, gates, now)
    {
      if outbound == 0 {
        return Some(Plain(Overloaded));
      }
      outbound := outbound - 1;
      if !gates.global {
        EndFetch();
        return Some(Plain(RateLimited));
      }
      if !gates.originKnown {
        ghost var seen := newOrigins;
        newOrigins := map o | o in newOrigins && now - newOrigins[o] < ORIGIN_WINDOW :: newOrigins[o];
        assert newOrigins == Retained(seen, now);
        if origin !in newOrigins
           && (|newOrigins| >= limits.origins.newOriginsPerMinute || |newOrigins| >= limits.origins.stateEntries)
        {
          EndFetch();
          return Some(Plain(RateLimited));
        }
        newOrigins := newOrigins[origin := now];
      }
      if !gates.origin {
        EndFetch();
        return Some(Plain(RateLimited));
      }
      error := None;
    }

    /** Dropping a permit. */
    method EndFetch()
      modifies `outbound
      ensures outbound == old(outbound) + 1
    {
      outbound := outbound + 1;
    }
  }
}
