/**
 What a load answers and leaves behind, in terms of what is stored and of the error's kind: when a
 stored representation is answered, when a refresh is made, when stale data stands in for an error,
 and how long an outcome holds.
 */
module LoadLaws {
  import opened Wrappers
  import opened Fetch
  import opened Resource
  import opened Representations
  import opened Circuits
  import opened Loads

  /** Stored and fresh: by its policy, and stored less than a day ago. */
  predicate HasFresh(rep: Option<Representation>, wall: int) {
    rep.Some? && rep.value.policy.freshAt(wall) && wall - rep.value.storedAt < 86_400_000
  }

  /** An outcome in the refresh store, kept there for five minutes, that has not run out. */
  predicate HasOutcome(held: Option<Held>, now: nat) {
    held.Some? && now < held.value.since + 300_000 && now < held.value.outcome.validUntil
  }

  /** Stored with a stale window that is still open. */
  predicate HasStale(rep: Option<Representation>, wall: int) {
    && rep.Some? && rep.value.staleIfError.Some?
    && 0 <= wall - rep.value.storedAt <= rep.value.freshFor + rep.value.staleIfError.value
  }

  /** A fresh representation is answered as it is, and nothing changes. */
  lemma FreshIsAnswered(lib: Library, key: ResourceKey, e: Entry, v: Visit)
    requires HasFresh(e.rep, v.wall)
    ensures LoadOnce(lib, key, e, v) == Loaded(e, Ok(e.rep.value), false)
  {
  }

  /** A load refreshes exactly when nothing fresh is stored and no outcome holds. */
  lemma RefreshedIff(lib: Library, key: ResourceKey, e: Entry, v: Visit)
    ensures LoadOnce(lib, key, e, v).refreshed <==> !HasFresh(e.rep, v.wall) && !HasOutcome(e.held, v.read)
    ensures !LoadOnce(lib, key, e, v).refreshed ==> LoadOnce(lib, key, e, v).entry == e
  {
  }

  /** The result that a load which finds nothing fresh goes by. */
  function Consulted(lib: Library, key: ResourceKey, e: Entry, v: Visit): LoadResult {
    if HasOutcome(e.held, v.read) then e.held.value.outcome.result else RefreshResult(lib, key, e, v)
  }

  type LoadResult = Result<Representation, FetchError>

  /**
   The fallback, exactly: a success is answered; after a passing failure or an open circuit the
   stored representation is answered if and only if its stale window is still open; every other
   error is answered as it is.
   */
  lemma FallbackIff(lib: Library, key: ResourceKey, e: Entry, v: Visit)
    requires !HasFresh(e.rep, v.wall)
    ensures var answer, result := LoadOnce(lib, key, e, v).answer, Consulted(lib, key, e, v);
            && (result.Ok? ==> answer == result)
            && (result.Err? && (IsPassing(result.error) || result.error.kind == CircuitOpen) && HasStale(e.rep, v.wall) ==>
                  answer == Ok(e.rep.value))
            && (result.Err? && !((IsPassing(result.error) || result.error.kind == CircuitOpen) && HasStale(e.rep, v.wall)) ==>
                  answer == result)
  {
    RefreshedIff(lib, key, e, v);
    if Consulted(lib, key, e, v).Err? {
      ClassesExact(Consulted(lib, key, e, v).error);
    }
  }

  /** A load ends in a passing failure or an open circuit only where nothing stale could be answered. */
  lemma ErrorMeansNothingStale(lib: Library, key: ResourceKey, e: Entry, v: Visit)
    requires LoadOnce(lib, key, e, v).answer.Err?
    requires var error := LoadOnce(lib, key, e, v).answer.error; IsPassing(error) || error.kind == CircuitOpen
    ensures || e.rep.None?
            || e.rep.value.staleIfError.None?
            || v.wall - e.rep.value.storedAt < 0
            || v.wall - e.rep.value.storedAt > e.rep.value.freshFor + e.rep.value.staleIfError.value
  {
    if HasFresh(e.rep, v.wall) {
      FreshIsAnswered(lib, key, e, v);
    } else {
      FallbackIff(lib, key, e, v);
    }
  }

  // Refreshes.

  /** A circuit that is open: used less than ten minutes ago, and open until later. */
  predicate HasOpenCircuit(circuit: Option<TimedCircuit>, now: nat) {
    && circuit.Some? && now < circuit.value.touched + 600_000
    && circuit.value.state.openUntil.Some? && now < circuit.value.state.openUntil.value
  }

  /** An open circuit fails the refresh at once; otherwise the attempt decides. */
  lemma RefreshExact(lib: Library, key: ResourceKey, e: Entry, v: Visit)
    ensures var result := RefreshResult(lib, key, e, v);
            if HasOpenCircuit(e.circuit, v.check) then
              result == Err(FetchError(CircuitOpen, None, None))
            else match v.attempt
              case Stopped(error) => result == Err(error)
              case Answered(response, wall) => result == FromResponse(lib, key, e.rep, response, wall, v.number)
  {
  }

  /** The failures counted so far, as the update of the circuit finds them. */
  function FailuresBefore(e: Entry, v: Visit): nat {
    if v.settled >= v.check + 600_000 || e.circuit.None? || v.check >= e.circuit.value.touched + 600_000 then 0
    else e.circuit.value.state.failures
  }

  /**
   How a refresh is settled: a success closes the circuit, a passing failure counts one more and
   opens it from the third on, nothing else touches the count; and the representation store is
   changed by a success only, which is kept if it may be stored and removes what was there if not.
   */
  lemma SettledExact(e: Entry, v: Visit, result: LoadResult)
    ensures var after := Concluded(e, v, result);
            && after.circuit.Some?
            && (result.Ok? ==> after.circuit.value == TimedCircuit(Circuit(0, 0, None), v.settled))
            && (result.Err? ==> after.rep == e.rep)
            && (result.Ok? ==> after.rep == if result.value.policy.storable then Some(result.value) else None)
            && (result.Err? && IsPassing(result.error) ==>
                  && after.circuit.value.state.failures ==
                     (if FailuresBefore(e, v) < 0xFFFF_FFFF then FailuresBefore(e, v) + 1 else FailuresBefore(e, v))
                  && after.circuit.value.touched == v.settled
                  && (FailuresBefore(e, v) >= 2 ==> HasOpenCircuit(after.circuit, v.settled)))
            && (result.Err? && !IsPassing(result.error) && result.error.kind != CircuitOpen ==>
                  after.circuit.value == CheckedCircuit(e, v))
  {
    if result.Err? {
      ClassesExact(result.error);
    }
  }

  /**
   How long an outcome holds from the moment its validity is computed: 50 ms after a success that
   was stored, no time after one that was not, the backoff or the longer hint after a passing
   failure, the rest of the open period where the circuit was open, and 50 ms after other errors.
   */
  lemma ValidityExact(e: Entry, v: Visit, result: LoadResult)
    ensures var held := Concluded(e, v, result).held;
            && held.Some? && held.value.outcome.result == result && held.value.since == v.stored
            && var validFor := held.value.outcome.validUntil - v.done;
            && (result.Ok? ==> validFor == if result.value.policy.storable then 50 else 0)
            && (result.Err? && IsPassing(result.error) ==>
                  var n, hint := FailuresBefore(e, v) + 1, result.error.retryAfter;
                  validFor == if hint.Some? && Min(hint.value, 300_000) > Exponential(n)
                              then Min(hint.value, 300_000) else Exponential(n))
            && (result.Err? && !IsPassing(result.error) && result.error.kind != CircuitOpen ==> validFor == 50)
  {
    if result.Err? {
      ClassesExact(result.error);
      BackoffExact(FailuresBefore(e, v) + 1, result.error.retryAfter);
    }
  }

  /** Where the circuit was open, the outcome holds until it no longer is. */
  lemma OpenOutcomeHolds(lib: Library, key: ResourceKey, e: Entry, v: Visit)
    requires HasOpenCircuit(e.circuit, v.check) && InOrder(v) && v.settled <= e.circuit.value.state.openUntil.value
    requires v.settled < v.check + 600_000
    ensures var held := Concluded(e, v, RefreshResult(lib, key, e, v)).held.value;
            held.outcome.validUntil == v.done + e.circuit.value.state.openUntil.value - v.settled
  {
    RefreshExact(lib, key, e, v);
  }

  /** Where the circuit is no longer open when the outcome is computed, the outcome holds for 50 ms. */
  lemma ClosedOutcomeIsShort(e: Entry, v: Visit, result: LoadResult)
    requires result.Err? && result.error.kind == CircuitOpen && v.settled < v.check + 600_000
    requires e.circuit.Some? && v.check < e.circuit.value.touched + 600_000
    requires e.circuit.value.state.openUntil.Some? ==> e.circuit.value.state.openUntil.value < v.settled
    ensures Concluded(e, v, result).held.value.outcome.validUntil == v.done + 50
  {
    ClassesExact(result.error);
  }
}
