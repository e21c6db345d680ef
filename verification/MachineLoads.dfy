/**
 The state machine against the sequential model: a load that runs alone through the machine's steps,
 at any instants and with any end of its attempt, answers and leaves what `LoadOnce` says, and one
 that is cancelled on the way leaves what `CutEntry` says.
 */
module MachineLoads {
  import opened Wrappers
  import opened Fetch
  import opened Resource
  import opened Wire
  import opened Representations
  import opened Circuits
  import opened Loads
  import opened LoadLaws
  import opened Machine

  // Runs from a given state.

  function Steps(cfg: Config, s: State, actions: seq<Action>): State {
    if actions == [] then s else Step(cfg, Steps(cfg, s, actions[..|actions| - 1]), actions[|actions| - 1])
  }

  ghost predicate Leads(cfg: Config, s: State, s': State) {
    exists actions :: Steps(cfg, s, actions) == s'
  }

  lemma LeadsNowhere(cfg: Config, s: State)
    ensures Leads(cfg, s, s)
  {
    assert Steps(cfg, s, []) == s;
  }

  lemma LeadsOn(cfg: Config, s: State, s': State, a: Action)
    requires Leads(cfg, s, s') && Enabled(s', a)
    ensures Leads(cfg, s, Apply(cfg, s', a))
  {
    var actions :| Steps(cfg, s, actions) == s';
    var more := actions + [a];
    assert more[..|more| - 1] == actions;
    assert Steps(cfg, s, more) == Apply(cfg, s', a);
  }

  lemma LeadsLater(cfg: Config, s: State, s': State, clock: nat)
    requires Leads(cfg, s, s') && clock >= s'.clock
    ensures Leads(cfg, s, s'.(clock := clock))
  {
    LeadsOn(cfg, s, s', Tick(clock - s'.clock));
  }

  // A load alone, and what the stores show.

  /** The stores of the machine show an entry of the sequential model. */
  ghost predicate Shows(s: State, key: ResourceKey, e: Entry) {
    && e.rep == RepOf(s, key)
    && (Machine.HasOutcome(s, key) <==> e.held.Some?)
    && (e.held.Some? ==> e.held.value.outcome == s.done[s.outcomes[key]].outcome)
    && (if e.circuit.Some? then e.circuit.value.state else CLOSED) == CircuitOf(s, key)
  }

  /** A visit that starts here: instants in order, nothing expiring on the way, the next refresh number. */
  predicate Timely(s: State, e: Entry, v: Visit) {
    && InOrder(v) && s.clock <= v.read && v.done == v.settled && v.number == s.nextRefresh
    && (e.held.Some? ==> v.read < e.held.value.since + REFRESH_TTL)
    && (e.circuit.Some? ==> v.check < e.circuit.value.touched + CIRCUIT_IDLE)
    && v.settled < v.check + CIRCUIT_IDLE
  }

  ghost predicate Begins(s: State, who: nat, key: ResourceKey, e: Entry, v: Visit) {
    && At(s, who) && s.active[who].key == key && s.active[who].pc.Start?
    && key !in s.inflight && s.permits > 0 && s.nextRefresh !in s.done
    && (key in s.outcomes ==> s.outcomes[key] in s.done)
    && Shows(s, key, e) && Timely(s, e, v)
  }

  /** The load is over and its request gone, or still there with this answer. */
  ghost predicate EndsWith(s: State, s': State, who: nat, key: ResourceKey, answer: LoadResult, e: Entry) {
    && At(s', who) && s'.active[who].pc == Ended(answer) && s'.permits == s.permits && key !in s'.inflight
    && Shows(s', key, e)
  }

  ghost predicate CutsTo(s: State, s': State, who: nat, key: ResourceKey, e: Entry) {
    who !in s'.active && s'.permits == s.permits && key !in s'.inflight && Shows(s', key, e)
  }

  // Answers without a refresh.

  lemma FreshEnds(cfg: Config, s: State, who: nat, key: ResourceKey, e: Entry, v: Visit)
    requires Begins(s, who, key, e, v) && HasFresh(e.rep, v.wall)
    ensures Leads(cfg, s, EndLoad(s, who, Ok(e.rep.value), v.wall, None))
    ensures EndsWith(s, EndLoad(s, who, Ok(e.rep.value), v.wall, None), who, key, Ok(e.rep.value), e)
  {
    LeadsNowhere(cfg, s);
    LeadsOn(cfg, s, s, OfRequest(who, LookUp(v.wall)));
  }

  /** The load has looked up and now reads the refresh store. */
  function Looked(s: State, who: nat, key: ResourceKey, v: Visit, pc: Pc): State
    requires At(s, who)
  {
    Move(s, who, pc).(clock := v.read)
  }

  lemma LookedLeads(cfg: Config, s: State, who: nat, key: ResourceKey, e: Entry, v: Visit)
    requires Begins(s, who, key, e, v) && !HasFresh(e.rep, v.wall)
    ensures Leads(cfg, s, Looked(s, who, key, v, Reading(e.rep, v.wall)))
  {
    LeadsNowhere(cfg, s);
    LeadsOn(cfg, s, s, OfRequest(who, LookUp(v.wall)));
    LeadsLater(cfg, s, Move(s, who, Reading(e.rep, v.wall)), v.read);
  }

  lemma OutcomeEnds(cfg: Config, s: State, who: nat, key: ResourceKey, e: Entry, v: Visit)
    requires Begins(s, who, key, e, v) && !HasFresh(e.rep, v.wall) && LoadLaws.HasOutcome(e.held, v.read)
    ensures var s' := EndVia(Looked(s, who, key, v, Reading(e.rep, v.wall)), who, s.outcomes[key]);
            && Leads(cfg, s, s')
            && EndsWith(s, s', who, key, ResultOrStale(e.held.value.outcome.result, e.rep, v.wall), e)
  {
    LookedLeads(cfg, s, who, key, e, v);
    var looked := Looked(s, who, key, v, Reading(e.rep, v.wall));
    LeadsOn(cfg, s, looked, OfRequest(who, ReadOutcome));
  }

  // Up to the refresh.

  /** The load is about to refresh; an outcome that had run out is gone. */
  function Ready(s: State, who: nat, key: ResourceKey, e: Entry, v: Visit): State
    requires At(s, who)
  {
    Looked(s, who, key, v, Getting(e.rep, v.wall)).(outcomes := s.outcomes - {key})
  }

  lemma ReadNothing(cfg: Config, s: State, s': State, who: nat)
    requires Leads(cfg, s, s') && At(s', who) && s'.active[who].pc.Reading?
    requires !Machine.HasOutcome(s', s'.active[who].key)
    ensures var pc := s'.active[who].pc; Leads(cfg, s, Move(s', who, Getting(pc.previous, pc.wall)))
  {
    LeadsOn(cfg, s, s', OfRequest(who, ReadOutcome));
  }

  lemma ReadExpired(cfg: Config, s: State, s': State, who: nat, key: ResourceKey)
    requires Leads(cfg, s, s') && At(s', who) && s'.active[who].pc.Reading? && s'.active[who].key == key
    requires Machine.HasOutcome(s', key) && s'.done[s'.outcomes[key]].outcome.validUntil <= s'.clock
    ensures var pc := s'.active[who].pc; Leads(cfg, s, Move(s', who, Invalidating(pc.previous, pc.wall)))
  {
    LeadsOn(cfg, s, s', OfRequest(who, ReadOutcome));
  }

  lemma RemoveExpired(cfg: Config, s: State, s': State, who: nat, key: ResourceKey)
    requires Leads(cfg, s, s') && At(s', who) && s'.active[who].pc.Invalidating? && s'.active[who].key == key
    ensures var pc := s'.active[who].pc;
            Leads(cfg, s, Move(s', who, Getting(pc.previous, pc.wall)).(outcomes := s'.outcomes - {key}))
  {
    LeadsOn(cfg, s, s', OfRequest(who, Invalidate));
  }

  lemma ReadyLeads(cfg: Config, s: State, who: nat, key: ResourceKey, e: Entry, v: Visit)
    requires Begins(s, who, key, e, v) && !HasFresh(e.rep, v.wall) && !LoadLaws.HasOutcome(e.held, v.read)
    ensures Leads(cfg, s, Ready(s, who, key, e, v))
  {
    LookedLeads(cfg, s, who, key, e, v);
    var looked := Looked(s, who, key, v, Reading(e.rep, v.wall));
    if Machine.HasOutcome(s, key) {
      ReadExpired(cfg, s, looked, who, key);
      LookedOn(s, who, key, v, Reading(e.rep, v.wall), Invalidating(e.rep, v.wall));
      RemoveExpired(cfg, s, Looked(s, who, key, v, Invalidating(e.rep, v.wall)), who, key);
      LookedOn(s, who, key, v, Invalidating(e.rep, v.wall), Getting(e.rep, v.wall));
    } else {
      ReadNothing(cfg, s, looked, who);
      LookedOn(s, who, key, v, Reading(e.rep, v.wall), Getting(e.rep, v.wall));
      assert s.outcomes - {key} == s.outcomes;
    }
  }

  lemma LookedOn(s: State, who: nat, key: ResourceKey, v: Visit, first: Pc, second: Pc)
    requires At(s, who)
    ensures Move(Looked(s, who, key, v, first), who, second) == Looked(s, who, key, v, second)
  {
    assert Move(Looked(s, who, key, v, first), who, second).active == Looked(s, who, key, v, second).active;
  }

  // The refresh.

  /** Everything a refresh of this load changes on its way. */
  function Mid(
    s: State, who: nat, key: ResourceKey, e: Entry, v: Visit, clock: nat, phase: Phase,
    reps: map<ResourceKey, Representation>, circuits: map<ResourceKey, Circuit>): State
    requires At(s, who)
  {
    s.(clock := clock, permits := if HoldsPermit(phase) && s.permits > 0 then s.permits - 1 else s.permits,
       reps := reps, circuits := circuits, outcomes := s.outcomes - {key},
       nextRefresh := s.nextRefresh + 1, keyOf := s.keyOf[s.nextRefresh := key],
       active := s.active[who := s.active[who].(pc := Awaiting(s.nextRefresh, e.rep, v.wall))],
       inflight := s.inflight[key := Refresh(s.nextRefresh, who, e.rep, phase)])
  }

  lemma CheckingLeads(cfg: Config, s: State, who: nat, key: ResourceKey, e: Entry, v: Visit)
    requires Begins(s, who, key, e, v) && Leads(cfg, s, Ready(s, who, key, e, v))
    ensures Leads(cfg, s, Mid(s, who, key, e, v, v.check, Checking, s.reps, s.circuits))
  {
    var ready := Ready(s, who, key, e, v);
    LeadsOn(cfg, s, ready, OfRequest(who, GetWith));
    var checking := Mid(s, who, key, e, v, v.read, Checking, s.reps, s.circuits);
    assert DoGetWith(ready, who) == checking;
    LeadsLater(cfg, s, checking, v.check);
  }

  /** The phase after the circuit check. */
  function Checked(e: Entry, v: Visit): Phase {
    if HasOpenCircuit(e.circuit, v.check) then Settling(Err(Plain(CircuitOpen))) else Cleared
  }

  lemma MidPhased(
    s: State, who: nat, key: ResourceKey, e: Entry, v: Visit, clock: nat, first: Phase, second: Phase,
    reps: map<ResourceKey, Representation>, circuits: map<ResourceKey, Circuit>)
    requires At(s, who)
    ensures var next := Mid(s, who, key, e, v, clock, second, reps, circuits);
            Phased(Mid(s, who, key, e, v, clock, first, reps, circuits), key, second).(permits := next.permits) == next
  {
  }

  lemma CheckStep(cfg: Config, s: State, mid: State, key: ResourceKey)
    requires Leads(cfg, s, mid) && InPhase(mid, key) && mid.inflight[key].phase.Checking?
    ensures IsOpen(CircuitOf(mid, key), mid.clock) ==> Leads(cfg, s, Phased(mid, key, Settling(Err(Plain(CircuitOpen)))))
    ensures !IsOpen(CircuitOf(mid, key), mid.clock) ==> Leads(cfg, s, Phased(mid, key, Cleared))
  {
    LeadsOn(cfg, s, mid, ToFetch(key, CheckCircuit));
  }

  lemma CheckedLeads(cfg: Config, s: State, who: nat, key: ResourceKey, e: Entry, v: Visit)
    requires Begins(s, who, key, e, v)
    requires Leads(cfg, s, Mid(s, who, key, e, v, v.check, Checking, s.reps, s.circuits))
    ensures Leads(cfg, s, Mid(s, who, key, e, v, v.check, Checked(e, v), s.reps, s.circuits))
  {
    var mid := Mid(s, who, key, e, v, v.check, Checking, s.reps, s.circuits);
    assert CircuitOf(mid, key) == CircuitOf(s, key);
    CheckStep(cfg, s, mid, key);
    MidPhased(s, who, key, e, v, v.check, Checking, Checked(e, v), s.reps, s.circuits);
    SamePermits(Phased(mid, key, Checked(e, v)));
  }

  lemma SamePermits(s: State)
    ensures s.(permits := s.permits) == s
  {
  }

  lemma AcquiredLeads(cfg: Config, s: State, who: nat, key: ResourceKey, e: Entry, v: Visit)
    requires Begins(s, who, key, e, v)
    requires Leads(cfg, s, Mid(s, who, key, e, v, v.check, Cleared, s.reps, s.circuits))
    ensures Leads(cfg, s, Mid(s, who, key, e, v, v.check, Admitting, s.reps, s.circuits))
  {
    LeadsOn(cfg, s, Mid(s, who, key, e, v, v.check, Cleared, s.reps, s.circuits), ToFetch(key, Acquire));
  }

  lemma FetchingLeads(cfg: Config, s: State, who: nat, key: ResourceKey, e: Entry, v: Visit)
    requires Begins(s, who, key, e, v)
    requires Leads(cfg, s, Mid(s, who, key, e, v, v.check, Admitting, s.reps, s.circuits))
    ensures Leads(cfg, s, Mid(s, who, key, e, v, v.check, Fetching, s.reps, s.circuits))
  {
    LeadsOn(cfg, s, Mid(s, who, key, e, v, v.check, Admitting, s.reps, s.circuits), ToFetch(key, Admit));
  }

  lemma StoppedLeads(cfg: Config, s: State, who: nat, key: ResourceKey, e: Entry, v: Visit, error: FetchError)
    requires Begins(s, who, key, e, v)
    requires Leads(cfg, s, Mid(s, who, key, e, v, v.check, Fetching, s.reps, s.circuits))
    ensures Leads(cfg, s, Mid(s, who, key, e, v, v.check, Settling(Err(error)), s.reps, s.circuits))
  {
    LeadsOn(cfg, s, Mid(s, who, key, e, v, v.check, Fetching, s.reps, s.circuits), FromFetch(key, Fail(error)));
  }

  lemma ReceiveStep(cfg: Config, s: State, mid: State, key: ResourceKey, response: Response, wall: int, result: LoadResult)
    requires Leads(cfg, s, mid) && InPhase(mid, key) && mid.inflight[key].phase.Fetching?
    requires result == FromResponse(cfg.lib, key, mid.inflight[key].previous, response, wall, mid.inflight[key].id)
    ensures result.Ok? ==> Leads(cfg, s, Phased(mid, key, Publishing(result.value)))
    ensures result.Err? ==> Leads(cfg, s, Release(mid, key, Settling(Err(result.error))))
  {
    LeadsOn(cfg, s, mid, FromFetch(key, Receive(response, wall)));
  }

  lemma ReceivedLeads(cfg: Config, s: State, who: nat, key: ResourceKey, e: Entry, v: Visit, response: Response, wall: int)
    requires Begins(s, who, key, e, v)
    requires Leads(cfg, s, Mid(s, who, key, e, v, v.check, Fetching, s.reps, s.circuits))
    ensures var built := FromResponse(cfg.lib, key, e.rep, response, wall, s.nextRefresh);
            var phase := if built.Ok? then Publishing(built.value) else Settling(Err(built.error));
            Leads(cfg, s, Mid(s, who, key, e, v, v.check, phase, s.reps, s.circuits))
  {
    var mid := Mid(s, who, key, e, v, v.check, Fetching, s.reps, s.circuits);
    var built := FromResponse(cfg.lib, key, e.rep, response, wall, s.nextRefresh);
    var phase := if built.Ok? then Publishing(built.value) else Settling(Err(built.error));
    ReceiveStep(cfg, s, mid, key, response, wall, built);
    MidPhased(s, who, key, e, v, v.check, Fetching, phase, s.reps, s.circuits);
    SamePermits(Phased(mid, key, phase));
  }

  function PublishedReps(s: State, key: ResourceKey, result: LoadResult): map<ResourceKey, Representation> {
    if result.Err? then s.reps
    else if result.value.policy.storable then s.reps[key := result.value]
    else s.reps - {key}
  }

  lemma PublishStep(cfg: Config, s: State, mid: State, key: ResourceKey, rep: Representation)
    requires Leads(cfg, s, mid) && InPhase(mid, key) && mid.inflight[key].phase == Publishing(rep)
    ensures Leads(cfg, s, Release(mid, key, Settling(Ok(rep))).(reps := PublishedReps(mid, key, Ok(rep))))
  {
    LeadsOn(cfg, s, mid, FromFetch(key, Publish));
  }

  lemma PublishedLeads(cfg: Config, s: State, who: nat, key: ResourceKey, e: Entry, v: Visit, rep: Representation)
    requires Begins(s, who, key, e, v)
    requires Leads(cfg, s, Mid(s, who, key, e, v, v.check, Publishing(rep), s.reps, s.circuits))
    ensures Leads(cfg, s, Mid(s, who, key, e, v, v.check, Settling(Ok(rep)), PublishedReps(s, key, Ok(rep)), s.circuits))
  {
    PublishStep(cfg, s, Mid(s, who, key, e, v, v.check, Publishing(rep), s.reps, s.circuits), key, rep);
    MidPhased(s, who, key, e, v, v.check, Publishing(rep), Settling(Ok(rep)), s.reps, s.circuits);
  }

  /** The refresh of a load ends, by the circuit or by its attempt, with the sequential model's result. */
  lemma ResultLeads(cfg: Config, s: State, who: nat, key: ResourceKey, e: Entry, v: Visit)
    requires Begins(s, who, key, e, v)
    requires Leads(cfg, s, Mid(s, who, key, e, v, v.check, Checked(e, v), s.reps, s.circuits))
    ensures var result := RefreshResult(cfg.lib, key, e, v);
            Leads(cfg, s, Mid(s, who, key, e, v, v.check, Settling(result), PublishedReps(s, key, result), s.circuits))
  {
    RefreshExact(cfg.lib, key, e, v);
    if !HasOpenCircuit(e.circuit, v.check) {
      AcquiredLeads(cfg, s, who, key, e, v);
      FetchingLeads(cfg, s, who, key, e, v);
      match v.attempt
      case Stopped(error) => StoppedLeads(cfg, s, who, key, e, v, error);
      case Answered(response, wall) =>
        ReceivedLeads(cfg, s, who, key, e, v, response, wall);
        var built := FromResponse(cfg.lib, key, e.rep, response, wall, s.nextRefresh);
        if built.Ok? {
          PublishedLeads(cfg, s, who, key, e, v, built.value);
        }
    }
  }

  // The end of the refresh.

  /** The circuits after settling at `clock`. */
  function CircuitsAfter(s: State, key: ResourceKey, result: LoadResult, clock: nat): map<ResourceKey, Circuit> {
    SettledCircuits(s.(clock := clock), key, result)
  }

  function OutcomeAfter(s: State, key: ResourceKey, result: LoadResult, clock: nat): Outcome {
    SettledOutcome(s.(clock := clock), key, result)
  }

  lemma SettleStep(cfg: Config, s: State, mid: State, key: ResourceKey, result: LoadResult)
    requires Leads(cfg, s, mid) && InPhase(mid, key) && mid.inflight[key].phase == Settling(result)
    ensures Leads(cfg, s, Phased(mid.(circuits := SettledCircuits(mid, key, result)), key,
                                 Delivering(SettledOutcome(mid, key, result))))
  {
    LeadsOn(cfg, s, mid, FromFetch(key, SettleCircuit));
  }

  lemma SettlesAlike(s: State, s': State, key: ResourceKey, result: LoadResult)
    requires s'.circuits == s.circuits
    ensures SettledCircuits(s', key, result) == CircuitsAfter(s, key, result, s'.clock)
    ensures SettledOutcome(s', key, result) == OutcomeAfter(s, key, result, s'.clock)
  {
  }

  lemma SettledLeads(cfg: Config, s: State, who: nat, key: ResourceKey, e: Entry, v: Visit, result: LoadResult)
    requires Begins(s, who, key, e, v)
    requires Leads(cfg, s, Mid(s, who, key, e, v, v.check, Settling(result), PublishedReps(s, key, result), s.circuits))
    ensures Leads(cfg, s, Mid(s, who, key, e, v, v.settled, Delivering(OutcomeAfter(s, key, result, v.settled)),
                              PublishedReps(s, key, result), CircuitsAfter(s, key, result, v.settled)))
  {
    var reps := PublishedReps(s, key, result);
    var outcome, circuits := OutcomeAfter(s, key, result, v.settled), CircuitsAfter(s, key, result, v.settled);
    LeadsLater(cfg, s, Mid(s, who, key, e, v, v.check, Settling(result), reps, s.circuits), v.settled);
    var settling := Mid(s, who, key, e, v, v.settled, Settling(result), reps, s.circuits);
    SettleStep(cfg, s, settling, key, result);
    SettlesAlike(s, settling, key, result);
    MidSettled(s, who, key, e, v, result, outcome, reps, circuits);
  }

  lemma MidSettled(
    s: State, who: nat, key: ResourceKey, e: Entry, v: Visit, result: LoadResult, outcome: Outcome,
    reps: map<ResourceKey, Representation>, circuits: map<ResourceKey, Circuit>)
    requires At(s, who)
    ensures Phased(Mid(s, who, key, e, v, v.settled, Settling(result), reps, s.circuits).(circuits := circuits), key,
                   Delivering(outcome))
         == Mid(s, who, key, e, v, v.settled, Delivering(outcome), reps, circuits)
  {
  }

  function Delivered(
    s: State, who: nat, key: ResourceKey, e: Entry, v: Visit, outcome: Outcome,
    reps: map<ResourceKey, Representation>, circuits: map<ResourceKey, Circuit>): State
    requires At(s, who)
  {
    Mid(s, who, key, e, v, v.settled, Delivering(outcome), reps, circuits).(
      inflight := s.inflight, outcomes := s.outcomes[key := s.nextRefresh],
      done := s.done[s.nextRefresh := Done(key, outcome)])
  }

  lemma DeliveredLeads(
    cfg: Config, s: State, who: nat, key: ResourceKey, e: Entry, v: Visit, outcome: Outcome,
    reps: map<ResourceKey, Representation>, circuits: map<ResourceKey, Circuit>)
    requires Begins(s, who, key, e, v)
    requires Leads(cfg, s, Mid(s, who, key, e, v, v.settled, Delivering(outcome), reps, circuits))
    ensures Leads(cfg, s, Delivered(s, who, key, e, v, outcome, reps, circuits))
  {
    var mid := Mid(s, who, key, e, v, v.settled, Delivering(outcome), reps, circuits);
    LeadsOn(cfg, s, mid, FromFetch(key, Deliver));
    assert mid.inflight - {key} == s.inflight;
    assert (s.outcomes - {key})[key := s.nextRefresh] == s.outcomes[key := s.nextRefresh];
  }

  lemma CollectedLeads(
    cfg: Config, s: State, who: nat, key: ResourceKey, e: Entry, v: Visit, outcome: Outcome,
    reps: map<ResourceKey, Representation>, circuits: map<ResourceKey, Circuit>)
    requires Begins(s, who, key, e, v) && Leads(cfg, s, Delivered(s, who, key, e, v, outcome, reps, circuits))
    ensures Leads(cfg, s, EndVia(Delivered(s, who, key, e, v, outcome, reps, circuits), who, s.nextRefresh))
  {
    LeadsOn(cfg, s, Delivered(s, who, key, e, v, outcome, reps, circuits), OfRequest(who, Collect));
  }

  /** What is delivered shows the entry that concludes the refresh. */
  lemma DeliveredShows(s: State, who: nat, key: ResourceKey, e: Entry, v: Visit, result: LoadResult)
    requires Begins(s, who, key, e, v)
    ensures var s' := Delivered(s, who, key, e, v, OutcomeAfter(s, key, result, v.settled),
                                PublishedReps(s, key, result), CircuitsAfter(s, key, result, v.settled));
            Shows(s', key, Concluded(e, v, result))
  {
    CircuitShows(s, key, e, v, result);
  }

  lemma CircuitShows(s: State, key: ResourceKey, e: Entry, v: Visit, result: LoadResult)
    requires Shows(s, key, e) && Timely(s, e, v)
    ensures CircuitAt(Some(CheckedCircuit(e, v)), v.settled) == CircuitOf(s, key)
    ensures var circuits := CircuitsAfter(s, key, result, v.settled);
            (if key in circuits then circuits[key] else CLOSED) == Concluded(e, v, result).circuit.value.state
    ensures OutcomeAfter(s, key, result, v.settled) == Concluded(e, v, result).held.value.outcome
  {
  }

  /** Up to the result of the refresh, for every load that makes one. */
  lemma RefreshLeads(cfg: Config, s: State, who: nat, key: ResourceKey, e: Entry, v: Visit)
    requires Begins(s, who, key, e, v) && !HasFresh(e.rep, v.wall) && !LoadLaws.HasOutcome(e.held, v.read)
    ensures var result := RefreshResult(cfg.lib, key, e, v);
            && Leads(cfg, s, Ready(s, who, key, e, v))
            && Leads(cfg, s, Mid(s, who, key, e, v, v.check, Checked(e, v), s.reps, s.circuits))
            && Leads(cfg, s, Mid(s, who, key, e, v, v.check, Settling(result), PublishedReps(s, key, result), s.circuits))
  {
    ReadyLeads(cfg, s, who, key, e, v);
    CheckingLeads(cfg, s, who, key, e, v);
    CheckedLeads(cfg, s, who, key, e, v);
    ResultLeads(cfg, s, who, key, e, v);
  }

  lemma RefreshEnds(cfg: Config, s: State, who: nat, key: ResourceKey, e: Entry, v: Visit, result: LoadResult)
    requires Begins(s, who, key, e, v)
    requires Leads(cfg, s, Mid(s, who, key, e, v, v.check, Settling(result), PublishedReps(s, key, result), s.circuits))
    ensures exists s' :: Leads(cfg, s, s') &&
              EndsWith(s, s', who, key, ResultOrStale(result, e.rep, v.wall), Concluded(e, v, result))
  {
    var reps, outcome := PublishedReps(s, key, result), OutcomeAfter(s, key, result, v.settled);
    var circuits := CircuitsAfter(s, key, result, v.settled);
    SettledLeads(cfg, s, who, key, e, v, result);
    DeliveredLeads(cfg, s, who, key, e, v, outcome, reps, circuits);
    CollectedLeads(cfg, s, who, key, e, v, outcome, reps, circuits);
    DeliveredShows(s, who, key, e, v, result);
    CollectedEnds(s, Delivered(s, who, key, e, v, outcome, reps, circuits), who, key, Concluded(e, v, result));
    assert EndsWith(s, EndVia(Delivered(s, who, key, e, v, outcome, reps, circuits), who, s.nextRefresh), who, key,
                    ResultOrStale(result, e.rep, v.wall), Concluded(e, v, result));
  }

  lemma CollectedEnds(s: State, s': State, who: nat, key: ResourceKey, e: Entry)
    requires At(s', who) && s'.active[who].pc.Awaiting? && s'.active[who].pc.id in s'.done
    requires s'.permits == s.permits && key !in s'.inflight && Shows(s', key, e)
    ensures var pc := s'.active[who].pc;
            EndsWith(s, EndVia(s', who, pc.id), who, key,
                     ResultOrStale(s'.done[pc.id].outcome.result, pc.previous, pc.wall), e)
  {
  }

  /**
   The machine refines the sequential model: from every state in which a request for a key that is
   not being refreshed begins its load, for every visit, there is a run of the machine in which the
   load ends with the answer of `LoadOnce` and leaves its entry.
   */
  lemma MachineRunsLoadOnce(cfg: Config, s: State, who: nat, key: ResourceKey, e: Entry, v: Visit)
    requires Begins(s, who, key, e, v)
    ensures var loaded := LoadOnce(cfg.lib, key, e, v);
            exists s' :: Leads(cfg, s, s') && EndsWith(s, s', who, key, loaded.answer, loaded.entry)
  {
    RefreshedIff(cfg.lib, key, e, v);
    if HasFresh(e.rep, v.wall) {
      FreshEnds(cfg, s, who, key, e, v);
    } else if LoadLaws.HasOutcome(e.held, v.read) {
      OutcomeEnds(cfg, s, who, key, e, v);
    } else {
      RefreshLeads(cfg, s, who, key, e, v);
      RefreshEnds(cfg, s, who, key, e, v, RefreshResult(cfg.lib, key, e, v));
    }
  }

  // Cancelled on the way.

  lemma CancelStep(cfg: Config, s: State, s': State, who: nat)
    requires Leads(cfg, s, s') && At(s', who)
    ensures Leads(cfg, s, Finish(Abort(s', who), who, Err(Plain(Timeout))))
  {
    LeadsOn(cfg, s, s', OfRequest(who, Cancel));
  }

  lemma CancelCuts(s: State, s': State, who: nat, key: ResourceKey, e: Entry)
    requires At(s', who) && s'.active[who].key == key && Shows(s', key, e)
    requires key in s'.inflight ==> LeadsIt(s', who, key)
    requires s'.permits + (if key in s'.inflight && HoldsPermit(s'.inflight[key].phase) then 1 else 0) == s.permits
    ensures CutsTo(s, Finish(Abort(s', who), who, Err(Plain(Timeout))), who, key, e)
  {
  }

  lemma CancelLeads(cfg: Config, s: State, s': State, who: nat, key: ResourceKey, e: Entry)
    requires Leads(cfg, s, s') && At(s', who) && s'.active[who].key == key && Shows(s', key, e)
    requires key in s'.inflight ==> LeadsIt(s', who, key)
    requires s'.permits + (if key in s'.inflight && HoldsPermit(s'.inflight[key].phase) then 1 else 0) == s.permits
    ensures exists s'' :: Leads(cfg, s, s'') && CutsTo(s, s'', who, key, e)
  {
    CancelStep(cfg, s, s', who);
    CancelCuts(s, s', who, key, e);
  }

  predicate LeadsIt(s: State, who: nat, key: ResourceKey) {
    && At(s, who) && key in s.inflight && s.active[who].pc.Awaiting?
    && s.inflight[key].id == s.active[who].pc.id && s.inflight[key].leader == who
  }

  /** A refresh on its way shows the stores it has changed, and no outcome. */
  lemma MidShows(
    s: State, who: nat, key: ResourceKey, e: Entry, v: Visit, clock: nat, phase: Phase,
    reps: map<ResourceKey, Representation>, circuits: map<ResourceKey, Circuit>, cut: Entry)
    requires Begins(s, who, key, e, v) && cut.held.None?
    requires cut.rep == if key in reps then Some(reps[key]) else None
    requires (if cut.circuit.Some? then cut.circuit.value.state else CLOSED)
          == if key in circuits then circuits[key] else CLOSED
    ensures var mid := Mid(s, who, key, e, v, clock, phase, reps, circuits);
            && Shows(mid, key, cut) && LeadsIt(mid, who, key) && mid.active[who].key == key
            && mid.permits + (if HoldsPermit(phase) then 1 else 0) == s.permits
  {
  }

  /**
   A load that is cancelled after any of its effects on the stores leaves what the sequential model's
   cut-off load leaves, and gives back what it held.
   */
  lemma MachineRunsCutOff(cfg: Config, s: State, who: nat, key: ResourceKey, e: Entry, v: Visit, cut: Cut)
    requires Begins(s, who, key, e, v) && !HasFresh(e.rep, v.wall) && !LoadLaws.HasOutcome(e.held, v.read)
    ensures exists s' :: Leads(cfg, s, s') && CutsTo(s, s', who, key, CutEntry(cfg.lib, key, e, v, cut))
  {
    var result := RefreshResult(cfg.lib, key, e, v);
    var left := CutEntry(cfg.lib, key, e, v, cut);
    RefreshedIff(cfg.lib, key, e, v);
    RefreshLeads(cfg, s, who, key, e, v);
    match cut
    case OutcomeRemoved => CancelLeads(cfg, s, Ready(s, who, key, e, v), who, key, left);
    case CircuitChecked => CutMid(cfg, s, who, key, e, v, Checked(e, v), s.reps, left);
    case ResultPublished => CutMid(cfg, s, who, key, e, v, Settling(result), PublishedReps(s, key, result), left);
    case CircuitSettled => CutSettled(cfg, s, who, key, e, v, result);
    case OutcomeStored => CutStored(cfg, s, who, key, e, v, result);
  }

  lemma CutMid(
    cfg: Config, s: State, who: nat, key: ResourceKey, e: Entry, v: Visit, phase: Phase,
    reps: map<ResourceKey, Representation>, left: Entry)
    requires Begins(s, who, key, e, v) && Leads(cfg, s, Mid(s, who, key, e, v, v.check, phase, reps, s.circuits))
    requires left.held.None? && left.rep == (if key in reps then Some(reps[key]) else None)
    requires (if left.circuit.Some? then left.circuit.value.state else CLOSED) == CircuitOf(s, key)
    ensures exists s' :: Leads(cfg, s, s') && CutsTo(s, s', who, key, left)
  {
    MidShows(s, who, key, e, v, v.check, phase, reps, s.circuits, left);
    CancelLeads(cfg, s, Mid(s, who, key, e, v, v.check, phase, reps, s.circuits), who, key, left);
  }

  lemma CutSettled(cfg: Config, s: State, who: nat, key: ResourceKey, e: Entry, v: Visit, result: LoadResult)
    requires Begins(s, who, key, e, v)
    requires Leads(cfg, s, Mid(s, who, key, e, v, v.check, Settling(result), PublishedReps(s, key, result), s.circuits))
    ensures exists s' :: Leads(cfg, s, s') && CutsTo(s, s', who, key, Concluded(e, v, result).(held := None))
  {
    var reps, outcome := PublishedReps(s, key, result), OutcomeAfter(s, key, result, v.settled);
    var circuits, left := CircuitsAfter(s, key, result, v.settled), Concluded(e, v, result).(held := None);
    SettledLeads(cfg, s, who, key, e, v, result);
    CircuitShows(s, key, e, v, result);
    MidShows(s, who, key, e, v, v.settled, Delivering(outcome), reps, circuits, left);
    CancelLeads(cfg, s, Mid(s, who, key, e, v, v.settled, Delivering(outcome), reps, circuits), who, key, left);
  }

  lemma CutStored(cfg: Config, s: State, who: nat, key: ResourceKey, e: Entry, v: Visit, result: LoadResult)
    requires Begins(s, who, key, e, v)
    requires Leads(cfg, s, Mid(s, who, key, e, v, v.check, Settling(result), PublishedReps(s, key, result), s.circuits))
    ensures exists s' :: Leads(cfg, s, s') && CutsTo(s, s', who, key, Concluded(e, v, result))
  {
    var reps, outcome := PublishedReps(s, key, result), OutcomeAfter(s, key, result, v.settled);
    var circuits := CircuitsAfter(s, key, result, v.settled);
    SettledLeads(cfg, s, who, key, e, v, result);
    DeliveredLeads(cfg, s, who, key, e, v, outcome, reps, circuits);
    DeliveredShows(s, who, key, e, v, result);
    CancelLeads(cfg, s, Delivered(s, who, key, e, v, outcome, reps, circuits), who, key, Concluded(e, v, result));
  }

  // Every load of the machine, in every interleaving, step by step.

  lemma OthersKeepPc(cfg: Config, s: State, a: Action, who: nat)
    requires Enabled(s, a) && At(s, who) && who < s.nextRequest && !(a.OfRequest? && a.who == who)
    ensures At(Apply(cfg, s, a), who) && Apply(cfg, s, a).active[who] == s.active[who]
  {
    match a
    case Tick(_) =>
    case Accept(request) => AcceptKeepsPc(cfg, s, request, who);
    case OfRequest(other, step) => OtherRequestKeepsPc(cfg, s, other, step, who);
    case ToFetch(key, step) => FetchKeepsActive(s, key, step);
    case FromFetch(key, step) => FinishKeepsActive(cfg, s, key, step);
    case Lose(_, _) =>
  }

  lemma AcceptKeepsPc(cfg: Config, s: State, request: ResolveRequest, who: nat)
    requires At(s, who) && who < s.nextRequest
    ensures At(DoAccept(cfg, s, request), who) && DoAccept(cfg, s, request).active[who] == s.active[who]
  {
  }

  lemma OtherRequestKeepsPc(cfg: Config, s: State, other: nat, step: RequestStep, who: nat)
    requires At(s, other) && RequestCan(s, other, step) && At(s, who) && who != other
    ensures var s' := DoRequest(cfg, s, other, step); At(s', who) && s'.active[who] == s.active[who]
  {
  }

  lemma FetchKeepsActive(s: State, key: ResourceKey, step: FetchStep)
    requires InPhase(s, key) && FetchCan(s, key, step)
    ensures DoFetch(s, key, step).active == s.active
  {
  }

  lemma FinishKeepsActive(cfg: Config, s: State, key: ResourceKey, step: FinishStep)
    requires InPhase(s, key) && FinishCan(s, key, step)
    ensures DoFinish(cfg, s, key, step).active == s.active
  {
  }

  /** A load that begins either answers what is stored and fresh, or remembers exactly what is stored. */
  lemma LookUpExact(s: State, who: nat, wall: int)
    requires At(s, who)
    ensures var found := RepOf(s, s.active[who].key);
            DoLookUp(s, who, wall).active[who].pc ==
            if HasFresh(found, wall) then Ended(Ok(found.value)) else Reading(found, wall)
  {
  }

  /** Nothing stale could be answered, with what a load found and its reading of the wall clock. */
  predicate NothingStale(previous: Previous, wall: int) {
    || previous.None?
    || previous.value.staleIfError.None?
    || wall - previous.value.storedAt < 0
    || wall - previous.value.storedAt > previous.value.freshFor + previous.value.staleIfError.value
  }

  lemma ResultOrStaleExact(result: LoadResult, previous: Previous, wall: int)
    ensures var answer := ResultOrStale(result, previous, wall);
            answer.Err? && (IsPassing(answer.error) || answer.error.kind == CircuitOpen) ==> NothingStale(previous, wall)
  {
    if result.Err? {
      ClassesExact(result.error);
    }
  }

  lemma EndViaExact(s: State, who: nat, id: nat)
    requires At(s, who) && Midway(s.active[who].pc) && id in s.done
    ensures var pc, result := s.active[who].pc, EndVia(s, who, id).active[who].pc.result;
            result.Err? && (IsPassing(result.error) || result.error.kind == CircuitOpen) ==>
              NothingStale(pc.previous, pc.wall)
  {
    var pc := s.active[who].pc;
    ResultOrStaleExact(s.done[id].outcome.result, pc.previous, pc.wall);
  }

  /** One step of a load that has looked up: it keeps what it found, or ends as it must. */
  ghost predicate LoadsOn(before: Pc, after: Pc)
    requires Midway(before)
  {
    && (Midway(after) ==> after.previous == before.previous && after.wall == before.wall)
    && (after.Ended? && after.result.Err? && (IsPassing(after.result.error) || after.result.error.kind == CircuitOpen) ==>
          NothingStale(before.previous, before.wall))
  }

  lemma OwnStepLoadsOn(cfg: Config, s: State, who: nat, step: RequestStep)
    requires At(s, who) && RequestCan(s, who, step) && Midway(s.active[who].pc)
    ensures var s' := DoRequest(cfg, s, who, step);
            At(s', who) ==> LoadsOn(s.active[who].pc, s'.active[who].pc)
  {
    var a := s.active[who];
    match step
    case ReadOutcome => ReadLoadsOn(s, who);
    case Invalidate =>
    case GetWith => GetWithLoadsOn(s, who);
    case Collect => EndViaExact(s, who, a.pc.id);
    case Rejoin =>
    case Cancel =>
  }

  lemma ReadLoadsOn(s: State, who: nat)
    requires At(s, who) && s.active[who].pc.Reading?
    ensures LoadsOn(s.active[who].pc, DoReadOutcome(s, who).active[who].pc)
  {
    var a := s.active[who];
    if Machine.HasOutcome(s, a.key) && s.done[s.outcomes[a.key]].outcome.validUntil > s.clock {
      EndViaExact(s, who, s.outcomes[a.key]);
    }
  }

  lemma GetWithLoadsOn(s: State, who: nat)
    requires At(s, who) && s.active[who].pc.Getting?
    ensures LoadsOn(s.active[who].pc, DoGetWith(s, who).active[who].pc)
  {
    var a := s.active[who];
    if Machine.HasOutcome(s, a.key) {
      EndViaExact(s, who, s.outcomes[a.key]);
    }
  }

  /**
   In every interleaving, at every step, a load that has looked up keeps what it found and when, and
   ends in a passing failure or an open circuit only where nothing it found could be answered stale.
   */
  lemma LoadsEndInErrorOnlyWithoutStale(cfg: Config, actions: seq<Action>, a: Action, who: nat)
    requires var s := After(cfg, actions);
             Enabled(s, a) && At(s, who) && who < s.nextRequest && Midway(s.active[who].pc)
    ensures var s, s' := After(cfg, actions), After(cfg, actions + [a]);
            At(s', who) ==> LoadsOn(s.active[who].pc, s'.active[who].pc)
  {
    var s, more := After(cfg, actions), actions + [a];
    assert more[..|more| - 1] == actions;
    assert After(cfg, more) == Apply(cfg, s, a);
    if a.OfRequest? && a.who == who {
      OwnStepLoadsOn(cfg, s, who, a.step);
    } else {
      OthersKeepPc(cfg, s, a, who);
    }
  }
}
