/**
 What concurrency and timeouts cost: runs of the resolver's state machine, without any loss from a
 store, in which a fetch starts inside the backoff of a failure that was just counted.
 */
module Interleavings {
  import opened Wrappers
  import opened Fetch
  import opened Resource
  import opened Wire
  import opened Circuits
  import opened Loads
  import opened Machine

  /** Some run ends in this state that loses nothing from the stores and, unless `cut`, cancels nothing. */
  ghost predicate Reachable(cfg: Config, cut: bool, s: State) {
    exists actions :: After(cfg, actions) == s && Undisturbed(actions, cut)
  }

  predicate Undisturbed(actions: seq<Action>, cut: bool) {
    forall i :: 0 <= i < |actions| ==> Allowed(actions[i], cut)
  }

  predicate Allowed(a: Action, cut: bool) {
    !a.Lose? && (a.OfRequest? && a.step.Cancel? ==> cut)
  }

  lemma ReachableStep(cfg: Config, cut: bool, s: State, a: Action)
    requires Reachable(cfg, cut, s) && Enabled(s, a) && Allowed(a, cut)
    ensures Reachable(cfg, cut, Apply(cfg, s, a))
  {
    var actions :| After(cfg, actions) == s && Undisturbed(actions, cut);
    var more := actions + [a];
    assert more[..|more| - 1] == actions;
    assert After(cfg, more) == Apply(cfg, s, a) && Undisturbed(more, cut);
  }

  /** A request that will be loaded, for a key the stores know nothing fresh about. */
  predicate Loadable(cfg: Config, request: ResolveRequest) {
    cfg.validate(request).Ok? && request.keyId !in cfg.testKeys
  }

  function KeyOfRequest(cfg: Config, request: ResolveRequest): ResourceKey
    requires Loadable(cfg, request)
  {
    FirstKey(request, cfg.validate(request).value)
  }

  /** No refresh of the key is in flight, nothing is stored, and a fetch could go ahead. */
  predicate Ready(s: State, key: ResourceKey) {
    && key !in s.inflight && key !in s.reps && s.permits > 0
    && s.nextRefresh !in s.done
    && CircuitOf(s, key).openUntil.None?
  }

  ghost predicate Stands(s: State, who: nat, key: ResourceKey, pc: Pc) {
    At(s, who) && s.active[who].key == key && s.active[who].pc == pc
  }

  // A request arrives and finds an expired outcome, or none.

  predicate Expired(s: State, key: ResourceKey) {
    HasOutcome(s, key) && s.done[s.outcomes[key]].outcome.validUntil <= s.clock
  }

  function Arrived(cfg: Config, s: State, request: ResolveRequest, pc: Pc): State
    requires Loadable(cfg, request) && s.handlers > 0
  {
    var a := Active(request, cfg.validate(request).value, KeyOfRequest(cfg, request), pc);
    s.(handlers := s.handlers - 1, nextRequest := s.nextRequest + 1, active := s.active[s.nextRequest := a])
  }

  lemma ArrivedReachable(cfg: Config, cut: bool, s: State, request: ResolveRequest)
    requires Loadable(cfg, request) && s.handlers > 0 && Reachable(cfg, cut, s)
    ensures Reachable(cfg, cut, Arrived(cfg, s, request, Start))
  {
    ReachableStep(cfg, cut, s, Accept(request));
  }

  lemma LookedUpReachable(cfg: Config, cut: bool, s: State, who: nat, key: ResourceKey)
    requires Stands(s, who, key, Start) && key !in s.reps && Reachable(cfg, cut, s)
    ensures Reachable(cfg, cut, Move(s, who, Reading(None, 0)))
  {
    ReachableStep(cfg, cut, s, OfRequest(who, LookUp(0)));
  }

  function AfterRead(s: State, key: ResourceKey): Pc {
    if HasOutcome(s, key) then Invalidating(None, 0) else Getting(None, 0)
  }

  lemma ReadReachable(cfg: Config, cut: bool, s: State, who: nat, key: ResourceKey)
    requires Stands(s, who, key, Reading(None, 0)) && Reachable(cfg, cut, s)
    requires !HasOutcome(s, key) || Expired(s, key)
    ensures Reachable(cfg, cut, Move(s, who, AfterRead(s, key)))
  {
    ReachableStep(cfg, cut, s, OfRequest(who, ReadOutcome));
  }

  lemma MovedIsArrived(cfg: Config, s: State, request: ResolveRequest, first: Pc, second: Pc)
    requires Loadable(cfg, request) && s.handlers > 0
    ensures Move(Arrived(cfg, s, request, first), s.nextRequest, second) == Arrived(cfg, s, request, second)
  {
    assert Move(Arrived(cfg, s, request, first), s.nextRequest, second).active
        == Arrived(cfg, s, request, second).active;
  }

  lemma Arrives(cfg: Config, cut: bool, s: State, request: ResolveRequest)
    requires Loadable(cfg, request) && s.handlers > 0 && Reachable(cfg, cut, s)
    requires KeyOfRequest(cfg, request) !in s.reps
    requires !HasOutcome(s, KeyOfRequest(cfg, request)) || Expired(s, KeyOfRequest(cfg, request))
    ensures Reachable(cfg, cut, Arrived(cfg, s, request, AfterRead(s, KeyOfRequest(cfg, request))))
  {
    var who, key := s.nextRequest, KeyOfRequest(cfg, request);
    ArrivedReachable(cfg, cut, s, request);
    LookedUpReachable(cfg, cut, Arrived(cfg, s, request, Start), who, key);
    MovedIsArrived(cfg, s, request, Start, Reading(None, 0));
    ReadReachable(cfg, cut, Arrived(cfg, s, request, Reading(None, 0)), who, key);
    MovedIsArrived(cfg, s, request, Reading(None, 0), AfterRead(s, key));
  }

  /** A request that found an expired outcome removes whatever outcome is there by now. */
  function Removed(s: State, who: nat, key: ResourceKey): State
    requires At(s, who)
  {
    Move(s, who, Getting(None, 0)).(outcomes := s.outcomes - {key})
  }

  lemma RemovedReachable(cfg: Config, cut: bool, s: State, who: nat, key: ResourceKey)
    requires Stands(s, who, key, Invalidating(None, 0)) && Reachable(cfg, cut, s)
    ensures Reachable(cfg, cut, Removed(s, who, key))
  {
    ReachableStep(cfg, cut, s, OfRequest(who, Invalidate));
  }

  // A request starts a refresh, and the fetch fails.

  function Leading(s: State, who: nat, key: ResourceKey, phase: Phase): State
    requires At(s, who)
  {
    s.(permits := if HoldsPermit(phase) && s.permits > 0 then s.permits - 1 else s.permits,
       nextRefresh := s.nextRefresh + 1, keyOf := s.keyOf[s.nextRefresh := key],
       active := s.active[who := s.active[who].(pc := Awaiting(s.nextRefresh, None, 0))],
       inflight := s.inflight[key := Refresh(s.nextRefresh, who, None, phase)])
  }

  lemma LeadingReachable(cfg: Config, cut: bool, s: State, who: nat, key: ResourceKey)
    requires Ready(s, key) && Stands(s, who, key, Getting(None, 0)) && !HasOutcome(s, key) && Reachable(cfg, cut, s)
    ensures Reachable(cfg, cut, Leading(s, who, key, Checking))
  {
    ReachableStep(cfg, cut, s, OfRequest(who, GetWith));
  }

  lemma ClearedReachable(cfg: Config, cut: bool, s: State, who: nat, key: ResourceKey)
    requires Ready(s, key) && At(s, who) && Reachable(cfg, cut, Leading(s, who, key, Checking))
    ensures Reachable(cfg, cut, Leading(s, who, key, Cleared))
  {
    ReachableStep(cfg, cut, Leading(s, who, key, Checking), ToFetch(key, CheckCircuit));
  }

  lemma AcquiredReachable(cfg: Config, cut: bool, s: State, who: nat, key: ResourceKey)
    requires Ready(s, key) && At(s, who) && Reachable(cfg, cut, Leading(s, who, key, Cleared))
    ensures Reachable(cfg, cut, Leading(s, who, key, Admitting))
  {
    ReachableStep(cfg, cut, Leading(s, who, key, Cleared), ToFetch(key, Acquire));
  }

  lemma AdmittedReachable(cfg: Config, cut: bool, s: State, who: nat, key: ResourceKey)
    requires Ready(s, key) && At(s, who) && Reachable(cfg, cut, Leading(s, who, key, Admitting))
    ensures Reachable(cfg, cut, Leading(s, who, key, Fetching))
  {
    ReachableStep(cfg, cut, Leading(s, who, key, Admitting), ToFetch(key, Admit));
  }

  lemma Starts(cfg: Config, cut: bool, s: State, who: nat, key: ResourceKey)
    requires Ready(s, key) && Stands(s, who, key, Getting(None, 0)) && !HasOutcome(s, key) && Reachable(cfg, cut, s)
    ensures Reachable(cfg, cut, Leading(s, who, key, Fetching))
  {
    LeadingReachable(cfg, cut, s, who, key);
    ClearedReachable(cfg, cut, s, who, key);
    AcquiredReachable(cfg, cut, s, who, key);
    AdmittedReachable(cfg, cut, s, who, key);
  }

  lemma StoppedReachable(cfg: Config, cut: bool, s: State, key: ResourceKey, error: FetchError)
    requires InPhase(s, key) && s.inflight[key].phase.Fetching? && Reachable(cfg, cut, s)
    ensures Reachable(cfg, cut, Release(s, key, Settling(Err(error))))
  {
    ReachableStep(cfg, cut, s, FromFetch(key, Fail(error)));
  }

  lemma SettledReachable(cfg: Config, cut: bool, s: State, key: ResourceKey)
    requires InPhase(s, key) && s.inflight[key].phase.Settling? && Reachable(cfg, cut, s)
    ensures Reachable(cfg, cut, DoSettle(s, key))
  {
    ReachableStep(cfg, cut, s, FromFetch(key, SettleCircuit));
  }

  lemma DeliveredReachable(cfg: Config, cut: bool, s: State, key: ResourceKey)
    requires InPhase(s, key) && s.inflight[key].phase.Delivering? && Reachable(cfg, cut, s)
    ensures Reachable(cfg, cut, DoDeliver(s, key))
  {
    ReachableStep(cfg, cut, s, FromFetch(key, Deliver));
  }

  function Failure(s: State, key: ResourceKey, error: FetchError): Done {
    Done(key, Outcome(Err(error), s.clock + Backoff(AfterFailure(CircuitOf(s, key), s.clock).failures, error.retryAfter)))
  }

  /** A whole failed attempt: its outcome is stored and its circuit has one more failure. */
  function Attempted(s: State, who: nat, key: ResourceKey, error: FetchError): State
    requires At(s, who)
  {
    s.(nextRefresh := s.nextRefresh + 1, keyOf := s.keyOf[s.nextRefresh := key],
       active := s.active[who := s.active[who].(pc := Awaiting(s.nextRefresh, None, 0))],
       circuits := s.circuits[key := AfterFailure(CircuitOf(s, key), s.clock)],
       outcomes := s.outcomes[key := s.nextRefresh],
       done := s.done[s.nextRefresh := Failure(s, key, error)])
  }

  /** A failed refresh written to the stores. */
  function Written(s: State, key: ResourceKey, error: FetchError): State
    requires InPhase(s, key)
  {
    s.(inflight := s.inflight - {key}, circuits := s.circuits[key := AfterFailure(CircuitOf(s, key), s.clock)],
       outcomes := s.outcomes[key := s.inflight[key].id],
       done := s.done[s.inflight[key].id := Failure(s, key, error)])
  }

  lemma SettlesAsWritten(s: State, key: ResourceKey, error: FetchError)
    requires InPhase(s, key) && s.inflight[key].phase == Settling(Err(error)) && Class(error).Transient?
    ensures DoDeliver(DoSettle(s, key), key) == Written(s, key, error)
  {
    assert DoDeliver(DoSettle(s, key), key).inflight == s.inflight - {key};
  }

  lemma FailureFollows(s: State, s': State, key: ResourceKey, error: FetchError)
    requires s'.circuits == s.circuits && s'.clock == s.clock
    ensures CircuitOf(s', key) == CircuitOf(s, key) && Failure(s', key, error) == Failure(s, key, error)
  {
  }

  lemma WrittenIsAttempted(s: State, who: nat, key: ResourceKey, error: FetchError)
    requires Ready(s, key) && At(s, who)
    ensures Written(Release(Leading(s, who, key, Fetching), key, Settling(Err(error))), key, error)
         == Attempted(s, who, key, error)
  {
    var stopped := Release(Leading(s, who, key, Fetching), key, Settling(Err(error)));
    FailureFollows(s, stopped, key, error);
    assert stopped.inflight - {key} == s.inflight;
    assert stopped == s.(
      nextRefresh := s.nextRefresh + 1, keyOf := s.keyOf[s.nextRefresh := key],
      active := s.active[who := s.active[who].(pc := Awaiting(s.nextRefresh, None, 0))],
      inflight := stopped.inflight);
  }

  lemma Attempts(cfg: Config, cut: bool, s: State, who: nat, key: ResourceKey, error: FetchError)
    requires Ready(s, key) && Stands(s, who, key, Getting(None, 0)) && !HasOutcome(s, key) && Reachable(cfg, cut, s)
    requires Class(error).Transient?
    ensures Reachable(cfg, cut, Attempted(s, who, key, error))
  {
    Starts(cfg, cut, s, who, key);
    var fetching := Leading(s, who, key, Fetching);
    StoppedReachable(cfg, cut, fetching, key, error);
    var stopped := Release(fetching, key, Settling(Err(error)));
    SettledReachable(cfg, cut, stopped, key);
    DeliveredReachable(cfg, cut, DoSettle(stopped, key), key);
    SettlesAsWritten(stopped, key, error);
    WrittenIsAttempted(s, who, key, error);
  }

  // The scene: a first request fails; two more find its expired outcome; one fails again; the other goes on.

  function FirstFailure(cfg: Config, request: ResolveRequest, error: FetchError): State
    requires Loadable(cfg, request) && cfg.activeHandlers >= 3
  {
    Attempted(Arrived(cfg, Initial(cfg), request, Getting(None, 0)), 0, KeyOfRequest(cfg, request), error)
  }

  lemma InitialReachable(cfg: Config, cut: bool)
    ensures Reachable(cfg, cut, Initial(cfg))
  {
    assert After(cfg, []) == Initial(cfg) && Undisturbed([], cut);
  }

  lemma FirstFails(cfg: Config, cut: bool, request: ResolveRequest, error: FetchError)
    requires Loadable(cfg, request) && cfg.activeHandlers >= 3 && cfg.outboundFetches > 0 && Class(error).Transient?
    ensures Reachable(cfg, cut, FirstFailure(cfg, request, error))
  {
    InitialReachable(cfg, cut);
    Arrives(cfg, cut, Initial(cfg), request);
    Attempts(cfg, cut, Arrived(cfg, Initial(cfg), request, Getting(None, 0)), 0, KeyOfRequest(cfg, request), error);
  }

  /** Time passes until the outcome has expired; then two requests find it so. */
  function TwoFound(cfg: Config, request: ResolveRequest, error: FetchError): State
    requires Loadable(cfg, request) && cfg.activeHandlers >= 3
  {
    var s := FirstFailure(cfg, request, error);
    var late := s.(clock := s.clock + MAX_FAILURE_BACKOFF);
    Arrived(cfg, Arrived(cfg, late, request, Invalidating(None, 0)), request, Invalidating(None, 0))
  }

  lemma TwoFind(cfg: Config, cut: bool, request: ResolveRequest, error: FetchError)
    requires Loadable(cfg, request) && cfg.activeHandlers >= 3 && cfg.outboundFetches > 0 && Class(error).Transient?
    ensures Reachable(cfg, cut, TwoFound(cfg, request, error))
  {
    FirstFails(cfg, cut, request, error);
    var s := FirstFailure(cfg, request, error);
    ReachableStep(cfg, cut, s, Tick(MAX_FAILURE_BACKOFF));
    var late := s.(clock := s.clock + MAX_FAILURE_BACKOFF);
    Arrives(cfg, cut, late, request);
    Arrives(cfg, cut, Arrived(cfg, late, request, Invalidating(None, 0)), request);
  }

  /** The second request fails again while the first one is about to remove the outcome. */
  function SecondFailure(cfg: Config, request: ResolveRequest, error: FetchError): State
    requires Loadable(cfg, request) && cfg.activeHandlers >= 3
  {
    var key := KeyOfRequest(cfg, request);
    Attempted(Removed(TwoFound(cfg, request, error), 2, key), 2, key, error)
  }

  lemma SecondFails(cfg: Config, cut: bool, request: ResolveRequest, error: FetchError)
    requires Loadable(cfg, request) && cfg.activeHandlers >= 3 && cfg.outboundFetches > 0 && Class(error).Transient?
    ensures Reachable(cfg, cut, SecondFailure(cfg, request, error))
  {
    TwoFind(cfg, cut, request, error);
    var s, key := TwoFound(cfg, request, error), KeyOfRequest(cfg, request);
    RemovedReachable(cfg, cut, s, 2, key);
    Attempts(cfg, cut, Removed(s, 2, key), 2, key, error);
  }

  /** A fetch of the key goes on although a refresh has failed whose backoff has not even begun to run. */
  predicate FetchesWithinBackoff(s: State, key: ResourceKey, id: nat, error: FetchError) {
    && id in s.done && s.done[id].key == key
    && s.done[id].outcome.result.Err? && s.done[id].outcome.result.error == error
    && s.done[id].outcome.validUntil >= s.clock + MIN_FAILURE_BACKOFF
    && InPhase(s, key) && s.inflight[key].phase.Fetching? && s.inflight[key].id > id
  }

  /**
   With three handlers and a permit, and without any loss or cancellation, for every request that is loaded and every transient error
   there is a run in which a fetch starts inside the backoff of a failure that has just been
   stored. The spacing proved for loads that follow one another needs that they do.
   */
  lemma BackoffNeedsSequence(cfg: Config, request: ResolveRequest, error: FetchError)
    requires Loadable(cfg, request) && cfg.activeHandlers >= 3 && cfg.outboundFetches > 0 && Class(error).Transient?
    ensures exists actions :: Undisturbed(actions, false) &&
              FetchesWithinBackoff(After(cfg, actions), KeyOfRequest(cfg, request), 1, error)
  {
    var s, key := SecondFailure(cfg, request, error), KeyOfRequest(cfg, request);
    SecondFails(cfg, false, request, error);
    RemovedReachable(cfg, false, s, 1, key);
    Starts(cfg, false, Removed(s, 1, key), 1, key);
    var end := Leading(Removed(s, 1, key), 1, key, Fetching);
    assert FetchesWithinBackoff(end, key, 1, error);
    var actions :| After(cfg, actions) == end && Undisturbed(actions, false);
  }

  // One handler: a load is cut off after its failure was counted and before its outcome was stored.

  function Counted(cfg: Config, request: ResolveRequest, error: FetchError): State
    requires Loadable(cfg, request) && cfg.activeHandlers > 0
  {
    var s, key := Arrived(cfg, Initial(cfg), request, Getting(None, 0)), KeyOfRequest(cfg, request);
    DoSettle(Release(Leading(s, 0, key, Fetching), key, Settling(Err(error))), key)
  }

  lemma CountedReachable(cfg: Config, cut: bool, request: ResolveRequest, error: FetchError)
    requires Loadable(cfg, request) && cfg.activeHandlers > 0 && cfg.outboundFetches > 0
    ensures Reachable(cfg, cut, Counted(cfg, request, error))
  {
    var s, key := Arrived(cfg, Initial(cfg), request, Getting(None, 0)), KeyOfRequest(cfg, request);
    InitialReachable(cfg, cut);
    Arrives(cfg, cut, Initial(cfg), request);
    Starts(cfg, cut, s, 0, key);
    StoppedReachable(cfg, cut, Leading(s, 0, key, Fetching), key, error);
    SettledReachable(cfg, cut, Release(Leading(s, 0, key, Fetching), key, Settling(Err(error))), key);
  }

  lemma CancelledReachable(cfg: Config, cut: bool, s: State, who: nat)
    requires cut && At(s, who) && Reachable(cfg, cut, s)
    ensures Reachable(cfg, cut, Finish(Abort(s, who), who, Err(Plain(Timeout))))
  {
    ReachableStep(cfg, cut, s, OfRequest(who, Cancel));
  }

  /** After the cut only the circuit remembers the failure, and it is not open. */
  predicate OnlyCounted(cfg: Config, s: State, key: ResourceKey) {
    && Ready(s, key) && key !in s.outcomes && s.handlers == cfg.activeHandlers && s.active == map[]
    && s.clock == 0 && CircuitOf(s, key) == AfterFailure(CLOSED, 0)
  }

  lemma CutLeavesCounted(cfg: Config, request: ResolveRequest, error: FetchError)
    requires Loadable(cfg, request) && cfg.activeHandlers > 0 && cfg.outboundFetches > 0 && Class(error).Transient?
    ensures OnlyCounted(cfg, Finish(Abort(Counted(cfg, request, error), 0), 0, Err(Plain(Timeout))),
                        KeyOfRequest(cfg, request))
  {
    var s, key := Counted(cfg, request, error), KeyOfRequest(cfg, request);
    assert s.active.Keys == {0} && InFlight(s, key, 0) && s.inflight[key].leader == 0;
    assert CircuitOf(s, key) == AfterFailure(CLOSED, 0);
    assert Abort(s, 0).inflight == map[];
  }

  /** One request is active and fetches, at the instant at which the key's first failure was counted. */
  predicate FetchesAtOnce(s: State, key: ResourceKey) {
    && s.clock == 0 && CircuitOf(s, key) == AfterFailure(CLOSED, 0)
    && |s.active| == 1 && InPhase(s, key) && s.inflight[key].phase.Fetching?
  }

  lemma FetchesAgain(cfg: Config, cut: bool, s: State, request: ResolveRequest)
    requires Loadable(cfg, request) && cfg.activeHandlers > 0 && Reachable(cfg, cut, s)
    requires OnlyCounted(cfg, s, KeyOfRequest(cfg, request))
    ensures exists s' :: Reachable(cfg, cut, s') && FetchesAtOnce(s', KeyOfRequest(cfg, request))
  {
    var key := KeyOfRequest(cfg, request);
    Arrives(cfg, cut, s, request);
    var arrived := Arrived(cfg, s, request, Getting(None, 0));
    Starts(cfg, cut, arrived, s.nextRequest, key);
    var end := Leading(arrived, s.nextRequest, key, Fetching);
    assert end.active.Keys == {s.nextRequest} && |end.active| == |end.active.Keys|;
    assert FetchesAtOnce(end, key);
  }

  /**
   With a single handler, so that loads do follow one another, and without any loss, for every
   request that is loaded and every transient error there is a run that counts a failure of the
   key and fetches again at the same instant: the load was cut off before it stored its outcome.
   */
  lemma BackoffNeedsStoring(cfg: Config, request: ResolveRequest, error: FetchError)
    requires Loadable(cfg, request) && cfg.activeHandlers == 1 && cfg.outboundFetches > 0 && Class(error).Transient?
    ensures exists actions :: Undisturbed(actions, true) && FetchesAtOnce(After(cfg, actions), KeyOfRequest(cfg, request))
  {
    var s := Counted(cfg, request, error);
    CountedReachable(cfg, true, request, error);
    CancelledReachable(cfg, true, s, 0);
    CutLeavesCounted(cfg, request, error);
    FetchesAgain(cfg, true, Finish(Abort(s, 0), 0, Err(Plain(Timeout))), request);
    var end :| Reachable(cfg, true, end) && FetchesAtOnce(end, KeyOfRequest(cfg, request));
    var actions :| After(cfg, actions) == end && Undisturbed(actions, true);
  }
}
