/**
 One load of one resource, run without another load of the same resource interleaving: what it
 answers and how it leaves the stores. Instants are milliseconds of a clock that never runs
 backwards; the wall clock is an arbitrary reading.
 */
module Loads {
  import opened Wrappers
  import opened Fetch
  import opened Resource
  import opened Representations
  import opened Circuits

  datatype Outcome = Outcome(result: Result<Representation, FetchError>, validUntil: nat)

  /** An entry of the refresh store and the instant it was inserted. */
  datatype Held = Held(outcome: Outcome, since: nat)

  /** An entry of the circuit store and the instant it was last used. */
  datatype TimedCircuit = TimedCircuit(state: Circuit, touched: nat)

  /** Everything the stores hold for one key. */
  datatype Entry = Entry(rep: Option<Representation>, held: Option<Held>, circuit: Option<TimedCircuit>)

  const NO_ENTRY := Entry(None, None, None)

  /** How a refresh ends that was not stopped by the circuit. */
  datatype Attempt = Stopped(error: FetchError) | Answered(response: Response, wall: int)

  /**
   The environment's part of one load: the clock readings in program order (start, outcome read,
   circuit check, circuit update, validity computed, outcome inserted), the attempt's end, and the
   number of the refresh the load may make.
   */
  datatype Visit = Visit(
    wall: int, read: nat, check: nat, attempt: Attempt, settled: nat, done: nat, stored: nat,
    number: nat)

  predicate InOrder(v: Visit) {
    v.read <= v.check <= v.settled <= v.done <= v.stored
  }

  /** The refresh store forgets entries after their life time. */
  function OutcomeAt(held: Option<Held>, now: nat): Option<Outcome> {
    if held.Some? && now < held.value.since + REFRESH_TTL then Some(held.value.outcome) else None
  }

  predicate Idle(circuit: Option<TimedCircuit>, now: nat) {
    circuit.None? || now >= circuit.value.touched + CIRCUIT_IDLE
  }

  /** The circuit store forgets idle entries; a missing entry is a closed circuit. */
  function CircuitAt(circuit: Option<TimedCircuit>, now: nat): Circuit {
    if Idle(circuit, now) then CLOSED else circuit.value.state
  }

  function ResultOrStale(
    result: Result<Representation, FetchError>, previous: Option<Representation>, wall: int)
    : Result<Representation, FetchError>
  {
    if result.Err? && previous.Some? && AllowsStale(result.error) && StaleAllowed(previous.value, wall)
    then Ok(previous.value)
    else result
  }

  /** The representation store after a success. */
  function Published(rep: Representation): Option<Representation> {
    if rep.policy.storable then Some(rep) else None
  }

  /** An answer without a refresh: a fresh representation, or an outcome that is still valid. */
  function Lookup(e: Entry, v: Visit): Option<Result<Representation, FetchError>> {
    if e.rep.Some? && FreshAt(e.rep.value, v.wall) then Some(Ok(e.rep.value))
    else
      var outcome := OutcomeAt(e.held, v.read);
      if outcome.Some? && outcome.value.validUntil > v.read
      then Some(ResultOrStale(outcome.value.result, e.rep, v.wall))
      else None
  }

  function AttemptResult(
    lib: Library, key: ResourceKey, previous: Option<Representation>, attempt: Attempt, number: nat)
    : Result<Representation, FetchError>
  {
    match attempt
    case Stopped(error) => Err(error)
    case Answered(response, wall) => FromResponse(lib, key, previous, response, wall, number)
  }

  /** Whether concluding a refresh with this result uses the circuit at all. */
  predicate UsesCircuit(result: Result<Representation, FetchError>) {
    result.Ok? || Class(result.error) in {Transient, Open}
  }

  /** The circuit after a refresh, and how long its outcome stays valid. */
  function Settle(c: Circuit, result: Result<Representation, FetchError>, now: nat): (Circuit, nat) {
    match result
    case Ok(rep) => (CLOSED, if rep.policy.storable then 50 else 0)
    case Err(error) =>
      match Class(error)
      case Transient => (AfterFailure(c, now), Backoff(AfterFailure(c, now).failures, error.retryAfter))
      case Open => (c, Remaining(c, now))
      case _ => (c, COALESCED_FAILURE_TTL)
  }

  datatype Loaded = Loaded(entry: Entry, answer: Result<Representation, FetchError>, refreshed: bool)

  function RefreshResult(lib: Library, key: ResourceKey, e: Entry, v: Visit)
    : Result<Representation, FetchError>
  {
    if IsOpen(CircuitAt(e.circuit, v.check), v.check) then Err(Plain(CircuitOpen))
    else AttemptResult(lib, key, e.rep, v.attempt, v.number)
  }

  /** The circuit as the circuit check leaves it. */
  function CheckedCircuit(e: Entry, v: Visit): TimedCircuit {
    TimedCircuit(CircuitAt(e.circuit, v.check), v.check)
  }

  function Concluded(e: Entry, v: Visit, result: Result<Representation, FetchError>): Entry {
    var checked := CheckedCircuit(e, v);
    var (circuit, validFor) := Settle(CircuitAt(Some(checked), v.settled), result, v.settled);
    Entry(
      if result.Ok? then Published(result.value) else e.rep,
      Some(Held(Outcome(result, v.done + validFor), v.stored)),
      Some(if UsesCircuit(result) then TimedCircuit(circuit, v.settled) else checked))
  }

  /** One load, start to end. */
  function LoadOnce(lib: Library, key: ResourceKey, e: Entry, v: Visit): Loaded {
    match Lookup(e, v)
    case Some(answer) => Loaded(e, answer, false)
    case None =>
      var result := RefreshResult(lib, key, e, v);
      Loaded(Concluded(e, v, result), ResultOrStale(result, e.rep, v.wall), true)
  }

  /** The load passed the circuit check and went on to fetch. */
  predicate Fetches(e: Entry, v: Visit) {
    Lookup(e, v).None? && !IsOpen(CircuitAt(e.circuit, v.check), v.check)
  }

  // Loads that the resolution timeout cuts off.

  /** The last thing a load did to the stores before it was cut off, if it began a refresh. */
  datatype Cut = OutcomeRemoved | CircuitChecked | ResultPublished | CircuitSettled | OutcomeStored

  /** What a load leaves in the stores that is cut off; an answer from the stores changes nothing. */
  function CutEntry(lib: Library, key: ResourceKey, e: Entry, v: Visit, cut: Cut): Entry {
    if Lookup(e, v).Some? then e
    else
      var result := RefreshResult(lib, key, e, v);
      match cut
      case OutcomeRemoved => e.(held := None)
      case CircuitChecked => e.(held := None, circuit := Some(CheckedCircuit(e, v)))
      case ResultPublished =>
        e.(held := None, circuit := Some(CheckedCircuit(e, v)),
           rep := if result.Ok? then Published(result.value) else e.rep)
      case CircuitSettled => Concluded(e, v, result).(held := None)
      case OutcomeStored => Concluded(e, v, result)
  }

  // Runs of one-at-a-time loads of one key.

  /** A load, a load that is cut off, or the loss of an entry from one of the bounded stores. */
  datatype Event =
    | Load(visit: Visit)
    | CutOff(visit: Visit, cut: Cut)
    | LoseRepresentation
    | LoseOutcome
    | LoseCircuit

  /**
   A run's state: the entry, the next number for a refresh, the transient failures since the
   circuit was last reset, the last refresh that succeeded and was published, and the latest
   instant read. A circuit that was lost or idle too long is reset.
   */
  datatype Track = Track(
    entry: Entry, refreshes: nat, streak: seq<Strike>, latest: Option<Representation>, clock: nat)

  const START := Track(NO_ENTRY, 0, [], None, 0)

  /** The streak as the circuit check finds it. */
  function CheckedStreak(t: Track, v: Visit): seq<Strike> {
    if Idle(t.entry.circuit, v.check) then [] else t.streak
  }

  /** The streak as the circuit update finds it. */
  function KeptStreak(t: Track, v: Visit): seq<Strike> {
    if v.settled >= v.check + CIRCUIT_IDLE then [] else CheckedStreak(t, v)
  }

  function NextStreak(t: Track, v: Visit, result: Result<Representation, FetchError>): seq<Strike> {
    if result.Ok? then []
    else if !UsesCircuit(result) then CheckedStreak(t, v)
    else if Class(result.error) == Transient then KeptStreak(t, v) + [Strike(v.settled, result.error.retryAfter)]
    else KeptStreak(t, v)
  }

  predicate Publishes(cut: Cut) {
    cut.ResultPublished? || cut.CircuitSettled? || cut.OutcomeStored?
  }

  function CutTime(v: Visit, cut: Cut): nat {
    match cut
    case OutcomeRemoved => v.read
    case CircuitChecked => v.check
    case ResultPublished => v.check
    case CircuitSettled => v.settled
    case OutcomeStored => v.stored
  }

  function CutStreak(t: Track, v: Visit, cut: Cut, result: Result<Representation, FetchError>): seq<Strike> {
    match cut
    case OutcomeRemoved => t.streak
    case CircuitChecked => CheckedStreak(t, v)
    case ResultPublished => CheckedStreak(t, v)
    case CircuitSettled => NextStreak(t, v, result)
    case OutcomeStored => NextStreak(t, v, result)
  }

  /** A visit that gets as far as the given point. */
  function Reached(lib: Library, key: ResourceKey, t: Track, v: Visit, cut: Cut): Track {
    if Lookup(t.entry, v).Some? then t.(clock := Max(t.clock, v.read))
    else
      var result := RefreshResult(lib, key, t.entry, v);
      Track(CutEntry(lib, key, t.entry, v, cut), if cut.OutcomeRemoved? then t.refreshes else v.number + 1,
            CutStreak(t, v, cut, result), if Publishes(cut) && result.Ok? then Some(result.value) else t.latest,
            Max(t.clock, CutTime(v, cut)))
  }

  function Next(lib: Library, key: ResourceKey, t: Track, event: Event): Track {
    match event
    case Load(v) => Reached(lib, key, t, v, OutcomeStored)
    case CutOff(v, cut) => Reached(lib, key, t, v, cut)
    case LoseRepresentation => t.(entry := t.entry.(rep := None))
    case LoseOutcome => t.(entry := t.entry.(held := None))
    case LoseCircuit => t.(entry := t.entry.(circuit := None), streak := [])
  }

  function Run(lib: Library, key: ResourceKey, events: seq<Event>): Track {
    if events == [] then START
    else Next(lib, key, Run(lib, key, events[..|events| - 1]), events[|events| - 1])
  }

  predicate IsVisit(event: Event) {
    event.Load? || event.CutOff?
  }

  /** A visit that starts where the run stands: clock read in order, refresh number not used yet. */
  predicate Follows(t: Track, v: Visit) {
    InOrder(v) && v.read >= t.clock && v.number >= t.refreshes
  }

  /** Loads follow one another, each after the one before has ended or was cut off. */
  ghost predicate Sequential(lib: Library, key: ResourceKey, events: seq<Event>) {
    forall i :: 0 <= i < |events| && IsVisit(events[i]) ==> Follows(Run(lib, key, events[..i]), events[i].visit)
  }

  lemma SequentialPrefix(lib: Library, key: ResourceKey, events: seq<Event>, n: nat)
    requires Sequential(lib, key, events) && n <= |events|
    ensures Sequential(lib, key, events[..n])
  {
    forall i | 0 <= i < n && IsVisit(events[..n][i])
      ensures Follows(Run(lib, key, events[..n][..i]), events[..n][i].visit)
    {
      assert events[..n][..i] == events[..i] && events[..n][i] == events[i];
    }
  }
}
