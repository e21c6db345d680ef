/** The resource loader over its mutable stores; one load at a time refines `LoadOnce`. */
module Loader {
  import opened Wrappers
  import opened Fetch
  import opened Resource
  import opened Representations
  import opened Circuits
  import opened Loads
  import opened Controls

  /** The environment's part of one fetch attempt, from destination check to response. */
  datatype World = World(urlError: Option<FetchError>, origin: string, gates: Gates, admitAt: nat, network: Attempt)

  /** How the attempt ends, given the controls it meets. */
  function AttemptOf(limits: Limits, permits: nat, seen: map<string, nat>, w: World): Attempt {
    if w.urlError.Some? then Stopped(w.urlError.value)
    else
      var kind := GateError(limits, permits, seen, w.origin, w.gates, w.admitAt);
      if kind.Some? then Stopped(Plain(kind.value)) else w.network
  }

  class CacheStore {
    var representations: map<ResourceKey, Representation>
    var refreshes: map<ResourceKey, Held>

    constructor ()
      ensures representations == map[] && refreshes == map[]
    {
      representations := map[];
      refreshes := map[];
    }

    /** A storable representation replaces the old one whole; any other removes it. */
    method Publish(key: ResourceKey, rep: Representation)
      modifies `representations
      ensures Find(representations, key) == Published(rep)
      ensures forall k :: k != key ==> Find(representations, k) == Find(old(representations), k)
    {
      if rep.policy.storable {
        representations := representations[key := rep];
      } else {
        representations := representations - {key};
      }
    }

    method Invalidate(key: ResourceKey)
      modifies `refreshes
      ensures Find(refreshes, key) == None
      ensures forall k :: k != key ==> Find(refreshes, k) == Find(old(refreshes), k)
    {
      refreshes := refreshes - {key};
    }

    method Keep(key: ResourceKey, held: Held)
      modifies `refreshes
      ensures Find(refreshes, key) == Some(held)
      ensures forall k :: k != key ==> Find(refreshes, k) == Find(old(refreshes), k)
    {
      refreshes := refreshes[key := held];
    }
  }

  class ResourceLoader {
    const lib: Library
    const cache: CacheStore
    const controls: WorkControls
    var refreshesMade: nat

    constructor (lib: Library, limits: Limits)
      ensures this.lib == lib && controls.limits == limits && fresh(cache) && fresh(controls)
      ensures controls.outbound == limits.outboundFetches && refreshesMade == 0
      ensures forall key :: View(key) == NO_ENTRY
    {
      this.lib := lib;
      cache := new CacheStore();
      controls := new WorkControls(limits);
      refreshesMade := 0;
    }

    /** What the stores hold for a key. */
    ghost function View(key: ResourceKey): Entry
      reads this, cache, controls
    {
      Entry(Find(cache.representations, key), Find(cache.refreshes, key), Find(controls.circuits, key))
    }

    /** A visit with what the loader adds to it: how its attempt ends, and its refresh number. */
    ghost function Visiting(v: Visit, w: World): Visit
      reads this, controls
    {
      v.(attempt := AttemptOf(controls.limits, controls.outbound, controls.newOrigins, w), number := refreshesMade)
    }

    /** The part of a refresh that fetches: permits are back when it ends, whatever its end. */
    method RefreshInner(key: ResourceKey, previous: Option<Representation>, v: Visit, w: World)
      returns (result: Result<Representation, FetchError>)
      requires previous == View(key).rep
      modifies cache`representations, controls`circuits, controls`outbound, controls`newOrigins
      ensures result == RefreshResult(lib, key, old(View(key)), old(Visiting(v, w)))
      ensures View(key) == old(View(key)).(
                rep := if result.Ok? then Published(result.value) else previous,
                circuit := Some(CheckedCircuit(old(View(key)), v)))
      ensures forall k :: k != key ==> View(k) == old(View(k))
      ensures controls.outbound == old(controls.outbound)
    {
      var open := controls.CheckCircuit(key, v.check);
      if open.Some? {
        return Err(open.value);
      }
      if w.urlError.Some? {
        return Err(w.urlError.value);
      }
      var refused := controls.BeginFetch(w.origin, w.gates, w.admitAt);
      if refused.Some? {
        return Err(refused.value);
      }
      if w.network.Stopped? {
        controls.EndFetch();
        return Err(w.network.error);
      }
      result := FromResponse(lib, key, previous, w.network.response, w.network.wall, refreshesMade);
      if result.Ok? {
        cache.Publish(key, result.value);
      }
      controls.EndFetch();
    }

    method Refresh(key: ResourceKey, previous: Option<Representation>, v: Visit, w: World)
      returns (outcome: Outcome)
      requires previous == View(key).rep
      modifies this, cache, controls
      ensures var result := RefreshResult(lib, key, old(View(key)), old(Visiting(v, w)));
              && outcome.result == result
              && Concluded(old(View(key)), old(Visiting(v, w)), result) == View(key).(held := Some(Held(outcome, v.stored)))
              && View(key).held == old(View(key)).held
      ensures forall k :: k != key ==> View(k) == old(View(k))
      ensures controls.outbound == old(controls.outbound)
      ensures refreshesMade == old(refreshesMade) + 1
    {
      var result := RefreshInner(key, previous, v, w);
      var validFor: nat;
      match result {
        case Ok(rep) =>
          var _ := controls.Success(key, v.settled);
          validFor := if rep.policy.storable then 50 else 0;
        case Err(error) =>
          match Class(error) {
            case Transient =>
              var backoff, _ := controls.FailureBackoff(key, error.retryAfter, v.settled);
              validFor := backoff;
            case Open =>
              validFor := controls.CircuitRemaining(key, v.settled);
            case _ =>
              validFor := COALESCED_FAILURE_TTL;
          }
      }
      refreshesMade := refreshesMade + 1;
      outcome := Outcome(result, v.done + validFor);
    }

    /** A refresh whose outcome is stored; an outcome that was there before does not matter. */
    method RefreshAndKeep(key: ResourceKey, previous: Option<Representation>, v: Visit, w: World)
      returns (outcome: Outcome)
      requires previous == View(key).rep
      modifies this, cache, controls
      ensures outcome.result == RefreshResult(lib, key, old(View(key)), old(Visiting(v, w)))
      ensures View(key) == Concluded(old(View(key)), old(Visiting(v, w)), outcome.result)
      ensures forall k :: k != key ==> View(k) == old(View(k))
      ensures controls.outbound == old(controls.outbound)
      ensures refreshesMade == old(refreshesMade) + 1
    {
      outcome := Refresh(key, previous, v, w);
      cache.Keep(key, Held(outcome, v.stored));
    }

    /** A load alone in the store does exactly what `LoadOnce` says, for its key only. */
    method Load(key: ResourceKey, v: Visit, w: World) returns (answer: Result<Representation, FetchError>)
      modifies this, cache, controls
      ensures var loaded := LoadOnce(lib, key, old(View(key)), old(Visiting(v, w)));
              && View(key) == loaded.entry
              && answer == loaded.answer
              && refreshesMade == old(refreshesMade) + (if loaded.refreshed then 1 else 0)
      ensures forall k :: k != key ==> View(k) == old(View(k))
      ensures controls.outbound == old(controls.outbound)
    {
      var previous := Find(cache.representations, key);
      if previous.Some? && FreshAt(previous.value, v.wall) {
        return Ok(previous.value);
      }
      var held := OutcomeAt(Find(cache.refreshes, key), v.read);
      if held.Some? {
        if held.value.validUntil > v.read {
          return ResultOrStale(held.value.result, previous, v.wall);
        }
        cache.Invalidate(key);
      }
      var outcome := RefreshAndKeep(key, previous, v, w);
      answer := ResultOrStale(outcome.result, previous, v.wall);
    }

    /**
     A load that the resolution timeout drops after it did this to the stores: whatever it held is
     given back, and the stores are as it left them.
     */
    method CutOffLoad(key: ResourceKey, v: Visit, w: World, cut: Cut)
      modifies this, cache, controls
      ensures View(key) == CutEntry(lib, key, old(View(key)), old(Visiting(v, w)), cut)
      ensures forall k :: k != key ==> View(k) == old(View(k))
      ensures controls.outbound == old(controls.outbound)
    {
      var previous := Find(cache.representations, key);
      if previous.Some? && FreshAt(previous.value, v.wall) {
        return;
      }
      var held := OutcomeAt(Find(cache.refreshes, key), v.read);
      if held.Some? && held.value.validUntil > v.read {
        return;
      }
      if cut.OutcomeStored? {
        var _ := Load(key, v, w);
        return;
      }
      cache.Invalidate(key);
      assert forall k :: k != key ==> View(k) == old(View(k));
      match cut {
        case OutcomeRemoved =>
        case CircuitChecked =>
          var _ := controls.CheckCircuit(key, v.check);
        case ResultPublished =>
          var _ := RefreshInner(key, previous, v, w);
        case CircuitSettled =>
          var _ := Refresh(key, previous, v, w);
        case OutcomeStored =>
      }
    }
  }
}
