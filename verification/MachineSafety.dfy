/** What every interleaving of the resolver keeps. */
module MachineSafety {
  import opened Wrappers
  import opened Fetch
  import opened Discovery
  import opened Resource
  import opened Wire
  import opened Representations
  import opened Circuits
  import opened Loads
  import opened Machine

  // Sound data: whatever is stored, passed on or answered for a key fits the key.

  ghost predicate SoundRep(cfg: Config, key: ResourceKey, rep: Representation) {
    FitsKey(cfg.lib, key, rep.resource) && BoundedWindow(rep)
  }

  ghost predicate SoundPrevious(cfg: Config, key: ResourceKey, previous: Previous) {
    previous.Some? ==> SoundRep(cfg, key, previous.value) && previous.value.policy.storable
  }

  ghost predicate SoundResult(cfg: Config, key: ResourceKey, result: LoadResult) {
    result.Ok? ==> SoundRep(cfg, key, result.value)
  }

  ghost predicate SoundPhase(cfg: Config, key: ResourceKey, phase: Phase) {
    match phase
    case Publishing(rep) => SoundRep(cfg, key, rep)
    case Settling(result) => SoundResult(cfg, key, result)
    case Delivering(outcome) => SoundResult(cfg, key, outcome.result)
    case _ => true
  }

  ghost predicate SoundPc(cfg: Config, key: ResourceKey, pc: Pc) {
    match pc
    case Start => true
    case Ended(result) => SoundResult(cfg, key, result)
    case _ => SoundPrevious(cfg, key, pc.previous)
  }

  ghost predicate SoundReps(cfg: Config, reps: map<ResourceKey, Representation>) {
    forall k :: k in reps ==> SoundPrevious(cfg, k, Some(reps[k]))
  }

  ghost predicate SoundInFlight(cfg: Config, inflight: map<ResourceKey, Refresh>) {
    forall k :: k in inflight ==>
      SoundPrevious(cfg, k, inflight[k].previous) && SoundPhase(cfg, k, inflight[k].phase)
  }

  ghost predicate SoundDone(cfg: Config, done: map<nat, Done>) {
    forall id :: id in done ==> SoundResult(cfg, done[id].key, done[id].outcome.result)
  }

  ghost predicate SoundActive(cfg: Config, active: map<nat, Active>) {
    forall w :: w in active ==> SoundPc(cfg, active[w].key, active[w].pc)
  }

  // Numbering: refreshes belong to one key, and every refresh in flight has a live leader.

  ghost predicate NumberedInFlight(
    keyOf: map<nat, ResourceKey>, inflight: map<ResourceKey, Refresh>, done: map<nat, Done>)
  {
    forall k :: k in inflight ==>
      inflight[k].id in keyOf && keyOf[inflight[k].id] == k && inflight[k].id !in done
  }

  ghost predicate NumberedDone(next: nat, keyOf: map<nat, ResourceKey>, done: map<nat, Done>) {
    && (forall id :: id in keyOf ==> id < next)
    && (forall id :: id in done ==> id in keyOf && keyOf[id] == done[id].key)
  }

  ghost predicate StoreFromDone(outcomes: map<ResourceKey, nat>, done: map<nat, Done>) {
    forall k :: k in outcomes ==> outcomes[k] in done && done[outcomes[k]].key == k
  }

  ghost predicate NumberedActive(next: nat, keyOf: map<nat, ResourceKey>, active: map<nat, Active>) {
    forall w :: w in active ==>
      && w < next
      && (active[w].pc.Awaiting? ==> active[w].pc.id in keyOf && keyOf[active[w].pc.id] == active[w].key)
  }

  ghost predicate LeadBy(k: ResourceKey, r: Refresh, active: map<nat, Active>) {
    && r.leader in active
    && active[r.leader].key == k
    && active[r.leader].pc.Awaiting?
    && active[r.leader].pc.id == r.id
  }

  ghost predicate Led(inflight: map<ResourceKey, Refresh>, active: map<nat, Active>) {
    forall k :: k in inflight ==> LeadBy(k, inflight[k], active)
  }

  // Permits.

  ghost function Holders(inflight: map<ResourceKey, Refresh>): set<ResourceKey> {
    set k | k in inflight && HoldsPermit(inflight[k].phase)
  }

  ghost predicate PermitsConserved(cfg: Config, permits: nat, inflight: map<ResourceKey, Refresh>) {
    permits + |Holders(inflight)| == cfg.outboundFetches
  }

  ghost predicate HandlersConserved(cfg: Config, handlers: nat, active: map<nat, Active>) {
    handlers + |active.Keys| == cfg.activeHandlers
  }

  // Circuits.

  predicate PastCheck(phase: Phase) {
    phase.Cleared? || HoldsPermit(phase)
  }

  ghost predicate ClosedPastCheck(
    clock: nat, circuits: map<ResourceKey, Circuit>, inflight: map<ResourceKey, Refresh>)
  {
    forall k :: k in inflight && PastCheck(inflight[k].phase) && k in circuits ==> !IsOpen(circuits[k], clock)
  }

  // Routing: the key being loaded follows from the request.

  ghost predicate RoutedRequest(cfg: Config, a: Active) {
    && cfg.validate(a.request) == Ok(a.target)
    && (a.key == FirstKey(a.request, a.target) || (a.request.discovery.Cimd? && a.key.kind.JwksKind?))
  }

  ghost predicate Routed(cfg: Config, active: map<nat, Active>) {
    forall w :: w in active ==> RoutedRequest(cfg, active[w])
  }

  // Answers of loads.

  /**
   Why a load may answer with a representation. Answered from the store at once, it is fresh;
   answered after consulting a completed refresh of the key, it is what that refresh gave, or that
   refresh failed with an error that allows a stale answer and the stale window is still open.
   */
  ghost predicate Justified(cfg: Config, done: map<nat, Done>, a: Served) {
    && SoundRep(cfg, a.key, a.rep)
    && (match a.via
        case None => a.rep.policy.storable && FreshAt(a.rep, a.wall)
        case Some(id) => id in done && done[id].key == a.key && Explains(done[id].outcome.result, a))
  }

  ghost predicate Explains(result: LoadResult, a: Served) {
    match result
    case Ok(rep) => rep == a.rep
    case Err(error) => AllowsStale(error) && a.rep.policy.storable && StaleAllowed(a.rep, a.wall)
  }

  ghost predicate AllJustified(cfg: Config, done: map<nat, Done>, served: seq<Served>) {
    forall i :: 0 <= i < |served| ==> Justified(cfg, done, served[i])
  }

  // Answers to requests.

  ghost predicate CorrectAnswer(cfg: Config, a: Answer) {
    a.result.Ok? ==>
      var target := cfg.validate(a.request);
      && target.Ok?
      && a.result.value.normalizedIdentifier == target.value.normalizedIdentifier
      && (a.request.discovery.Directory? && a.result.value.Resolved? ==>
            cfg.lib.thumbprint(a.result.value.jwk.x) == a.request.keyId)
  }

  ghost predicate AnswersCorrect(cfg: Config, answers: map<nat, Answer>) {
    forall w :: w in answers ==> CorrectAnswer(cfg, answers[w])
  }

  /** Everything about the refreshes in flight. */
  ghost predicate RefreshInv(
    cfg: Config, clock: nat, permits: nat, circuits: map<ResourceKey, Circuit>,
    inflight: map<ResourceKey, Refresh>, keyOf: map<nat, ResourceKey>, done: map<nat, Done>,
    active: map<nat, Active>)
  {
    && SoundInFlight(cfg, inflight)
    && NumberedInFlight(keyOf, inflight, done)
    && Led(inflight, active)
    && PermitsConserved(cfg, permits, inflight)
    && ClosedPastCheck(clock, circuits, inflight)
  }

  /** Everything about the active requests. */
  ghost predicate RequestInv(
    cfg: Config, next: nat, handlers: nat, keyOf: map<nat, ResourceKey>, active: map<nat, Active>)
  {
    && SoundActive(cfg, active)
    && NumberedActive(next, keyOf, active)
    && HandlersConserved(cfg, handlers, active)
    && Routed(cfg, active)
  }

  /** Everything about the histories. */
  ghost predicate HistoryInv(
    cfg: Config, next: nat, keyOf: map<nat, ResourceKey>, done: map<nat, Done>, served: seq<Served>,
    answers: map<nat, Answer>)
  {
    && SoundDone(cfg, done)
    && NumberedDone(next, keyOf, done)
    && AllJustified(cfg, done, served)
    && AnswersCorrect(cfg, answers)
  }

  ghost predicate Inv(cfg: Config, s: State) {
    && RefreshInv(cfg, s.clock, s.permits, s.circuits, s.inflight, s.keyOf, s.done, s.active)
    && RequestInv(cfg, s.nextRequest, s.handlers, s.keyOf, s.active)
    && HistoryInv(cfg, s.nextRefresh, s.keyOf, s.done, s.served, s.answers)
    && SoundReps(cfg, s.reps)
    && StoreFromDone(s.outcomes, s.done)
  }

  // The pieces that steps are made of.

  /** A request that leads no refresh in flight. */
  ghost predicate LeadsNone(s: State, who: nat) {
    forall k :: k in s.inflight ==> s.inflight[k].leader != who
  }

  lemma NotLeading(cfg: Config, s: State, who: nat)
    requires Inv(cfg, s) && At(s, who)
    requires s.active[who].pc.Awaiting? ==>
               !InFlight(s, s.active[who].key, s.active[who].pc.id) || s.active[who].pc.id in s.done
    ensures LeadsNone(s, who)
  {
    forall k | k in s.inflight ensures s.inflight[k].leader != who {
      assert LeadBy(k, s.inflight[k], s.active);
    }
  }

  lemma LedKept(inflight: map<ResourceKey, Refresh>, active: map<nat, Active>, active': map<nat, Active>, who: nat)
    requires Led(inflight, active)
    requires forall k :: k in inflight ==> inflight[k].leader != who
    requires forall w :: w in active && w != who ==> w in active' && active'[w] == active[w]
    ensures Led(inflight, active')
  {
    forall k | k in inflight ensures LeadBy(k, inflight[k], active') {
      assert LeadBy(k, inflight[k], active);
    }
  }

  /** A request is replaced by one that is sound, routed and numbered as well. */
  lemma ReplacedRequests(
    cfg: Config, next: nat, handlers: nat, keyOf: map<nat, ResourceKey>, active: map<nat, Active>, who: nat, a: Active)
    requires RequestInv(cfg, next, handlers, keyOf, active) && who in active
    requires RoutedRequest(cfg, a) && SoundPc(cfg, a.key, a.pc)
    requires a.pc.Awaiting? ==> a.pc.id in keyOf && keyOf[a.pc.id] == a.key
    ensures RequestInv(cfg, next, handlers, keyOf, active[who := a])
  {
    assert active[who := a].Keys == active.Keys;
  }

  lemma ReplacedLed(cfg: Config, s: State, who: nat, a: Active)
    requires RefreshInv(cfg, s.clock, s.permits, s.circuits, s.inflight, s.keyOf, s.done, s.active)
    requires LeadsNone(s, who)
    ensures RefreshInv(cfg, s.clock, s.permits, s.circuits, s.inflight, s.keyOf, s.done, s.active[who := a])
  {
    LedKept(s.inflight, s.active, s.active[who := a], who);
  }

  lemma ReplaceInv(cfg: Config, s: State, who: nat, a: Active)
    requires Inv(cfg, s) && At(s, who) && LeadsNone(s, who)
    requires RoutedRequest(cfg, a) && SoundPc(cfg, a.key, a.pc)
    requires a.pc.Awaiting? ==> a.pc.id in s.keyOf && s.keyOf[a.pc.id] == a.key
    ensures Inv(cfg, s.(active := s.active[who := a]))
  {
    ReplacedRequests(cfg, s.nextRequest, s.handlers, s.keyOf, s.active, who, a);
    ReplacedLed(cfg, s, who, a);
  }

  lemma MoveInv(cfg: Config, s: State, who: nat, pc: Pc)
    requires Inv(cfg, s) && At(s, who) && LeadsNone(s, who)
    requires SoundPc(cfg, s.active[who].key, pc)
    requires pc.Awaiting? ==> pc.id in s.keyOf && s.keyOf[pc.id] == s.active[who].key
    ensures Inv(cfg, Move(s, who, pc))
  {
    assert RoutedRequest(cfg, s.active[who]);
    ReplaceInv(cfg, s, who, s.active[who].(pc := pc));
  }

  lemma EndLoadInv(cfg: Config, s: State, who: nat, result: LoadResult, wall: int, via: Option<nat>)
    requires Inv(cfg, s) && At(s, who) && LeadsNone(s, who)
    requires SoundResult(cfg, s.active[who].key, result)
    requires result.Ok? ==> Justified(cfg, s.done, Served(s.active[who].key, result.value, wall, via))
    ensures Inv(cfg, EndLoad(s, who, result, wall, via))
  {
    MoveInv(cfg, s, who, Ended(result));
    var moved, ended := Move(s, who, Ended(result)), EndLoad(s, who, result, wall, via);
    assert AllJustified(cfg, ended.done, ended.served);
  }

  lemma HoldersChanged(inflight: map<ResourceKey, Refresh>, key: ResourceKey, r: Refresh)
    ensures var before := key in inflight && HoldsPermit(inflight[key].phase);
            |Holders(inflight[key := r])|
            == |Holders(inflight)| - (if before then 1 else 0) + (if HoldsPermit(r.phase) then 1 else 0)
  {
    var h := Holders(inflight) - {key};
    if HoldsPermit(r.phase) {
      assert Holders(inflight[key := r]) == h + {key};
    } else {
      assert Holders(inflight[key := r]) == h;
    }
  }

  lemma HoldersWithout(inflight: map<ResourceKey, Refresh>, key: ResourceKey)
    requires key in inflight
    ensures |Holders(inflight - {key})|
            == |Holders(inflight)| - (if HoldsPermit(inflight[key].phase) then 1 else 0)
  {
    assert Holders(inflight - {key}) == Holders(inflight) - {key};
  }

  lemma InFlightUpdated(cfg: Config, s: State, key: ResourceKey, phase: Phase)
    requires InPhase(s, key) && SoundPhase(cfg, key, phase)
    requires SoundInFlight(cfg, s.inflight) && NumberedInFlight(s.keyOf, s.inflight, s.done) && Led(s.inflight, s.active)
    ensures var inflight := s.inflight[key := s.inflight[key].(phase := phase)];
            SoundInFlight(cfg, inflight) && NumberedInFlight(s.keyOf, inflight, s.done) && Led(inflight, s.active)
  {
    var inflight := s.inflight[key := s.inflight[key].(phase := phase)];
    forall k | k in inflight ensures LeadBy(k, inflight[k], s.active) {
      assert LeadBy(k, s.inflight[k], s.active);
    }
  }

  /** A refresh moves on; permits are settled by whether it held one and holds one. */
  lemma PhasedInv(cfg: Config, s: State, key: ResourceKey, phase: Phase, permits: nat)
    requires Inv(cfg, s) && InPhase(s, key)
    requires SoundPhase(cfg, key, phase)
    requires PastCheck(phase) ==> !IsOpen(CircuitOf(s, key), s.clock)
    requires permits + (if HoldsPermit(phase) then 1 else 0)
             == s.permits + (if HoldsPermit(s.inflight[key].phase) then 1 else 0)
    ensures Inv(cfg, Phased(s, key, phase).(permits := permits))
  {
    var s' := Phased(s, key, phase).(permits := permits);
    InFlightUpdated(cfg, s, key, phase);
    HoldersChanged(s.inflight, key, s.inflight[key].(phase := phase));
    assert PermitsConserved(cfg, permits, s'.inflight);
    assert ClosedPastCheck(s.clock, s.circuits, s'.inflight);
  }

  lemma PhasedKeepsPermits(cfg: Config, s: State, key: ResourceKey, phase: Phase)
    requires Inv(cfg, s) && InPhase(s, key)
    requires SoundPhase(cfg, key, phase)
    requires PastCheck(phase) ==> !IsOpen(CircuitOf(s, key), s.clock)
    requires HoldsPermit(phase) == HoldsPermit(s.inflight[key].phase)
    ensures Inv(cfg, Phased(s, key, phase))
  {
    PhasedInv(cfg, s, key, phase, s.permits);
    assert Phased(s, key, phase).(permits := s.permits) == Phased(s, key, phase);
  }

  /** What a load answers after consulting a completed refresh of its key is justified. */
  lemma ViaJustified(cfg: Config, s: State, key: ResourceKey, id: nat, previous: Previous, wall: int)
    requires Inv(cfg, s) && id in s.done && s.done[id].key == key && SoundPrevious(cfg, key, previous)
    ensures var result := ResultOrStale(s.done[id].outcome.result, previous, wall);
            && SoundResult(cfg, key, result)
            && (result.Ok? ==> Justified(cfg, s.done, Served(key, result.value, wall, Some(id))))
  {
  }

  lemma EndViaInv(cfg: Config, s: State, who: nat, id: nat)
    requires Inv(cfg, s) && At(s, who) && LeadsNone(s, who) && Midway(s.active[who].pc)
    requires id in s.done && s.done[id].key == s.active[who].key
    ensures Inv(cfg, EndVia(s, who, id))
  {
    var a := s.active[who];
    assert SoundPc(cfg, a.key, a.pc);
    ViaJustified(cfg, s, a.key, id, a.pc.previous, a.pc.wall);
    EndLoadInv(cfg, s, who, ResultOrStale(s.done[id].outcome.result, a.pc.previous, a.pc.wall), a.pc.wall, Some(id));
  }

  lemma FinishInv(cfg: Config, s: State, who: nat, result: Result<ResolveResponse, FetchError>)
    requires Inv(cfg, s) && At(s, who) && LeadsNone(s, who)
    requires CorrectAnswer(cfg, Answer(s.active[who].request, result))
    ensures Inv(cfg, Finish(s, who, result))
  {
    var s' := Finish(s, who, result);
    LedKept(s.inflight, s.active, s'.active, who);
    assert s'.active.Keys == s.active.Keys - {who};
  }

  /** A cancelled leader gives back what its refresh held; nobody else is disturbed. */
  lemma AbortInv(cfg: Config, s: State, who: nat)
    requires Inv(cfg, s) && At(s, who)
    ensures Inv(cfg, Abort(s, who)) && LeadsNone(Abort(s, who), who)
    ensures Abort(s, who).active == s.active
  {
    var key := s.active[who].key;
    var s' := Abort(s, who);
    if s.active[who].pc.Awaiting? && InFlight(s, key, s.active[who].pc.id) && s.inflight[key].leader == who {
      HoldersWithout(s.inflight, key);
      forall k | k in s'.inflight ensures LeadBy(k, s'.inflight[k], s.active) && s'.inflight[k].leader != who {
        assert LeadBy(k, s.inflight[k], s.active);
      }
    } else {
      forall k | k in s.inflight ensures s.inflight[k].leader != who {
        assert LeadBy(k, s.inflight[k], s.active);
      }
    }
  }

  // Steps of the environment and of the stores.

  lemma TickInv(cfg: Config, s: State, elapsed: nat)
    requires Inv(cfg, s)
    ensures Inv(cfg, s.(clock := s.clock + elapsed))
  {
    var s' := s.(clock := s.clock + elapsed);
  }

  lemma CircuitSetInv(cfg: Config, s: State, key: ResourceKey, circuits: map<ResourceKey, Circuit>)
    requires Inv(cfg, s)
    requires InPhase(s, key) ==> !PastCheck(s.inflight[key].phase)
    requires forall k :: k in circuits && k != key ==> k in s.circuits && circuits[k] == s.circuits[k]
    ensures Inv(cfg, s.(circuits := circuits))
  {
    assert ClosedPastCheck(s.clock, circuits, s.inflight);
  }

  lemma CircuitDroppedInv(cfg: Config, s: State, key: ResourceKey)
    requires Inv(cfg, s)
    ensures Inv(cfg, s.(circuits := s.circuits - {key}))
  {
    assert ClosedPastCheck(s.clock, s.circuits - {key}, s.inflight);
  }

  lemma RepsInv(cfg: Config, s: State, reps: map<ResourceKey, Representation>)
    requires Inv(cfg, s) && SoundReps(cfg, reps)
    ensures Inv(cfg, s.(reps := reps))
  {
    var s' := s.(reps := reps);
  }

  lemma OutcomesInv(cfg: Config, s: State, key: ResourceKey)
    requires Inv(cfg, s)
    ensures Inv(cfg, s.(outcomes := s.outcomes - {key}))
  {
    var s' := s.(outcomes := s.outcomes - {key});
    assert StoreFromDone(s'.outcomes, s.done);
  }

  // Steps of a refresh.

  /** A refresh that ends in an error gives back the permit it holds, if it holds one. */
  lemma StopInv(cfg: Config, s: State, key: ResourceKey, error: FetchError)
    requires Inv(cfg, s) && InPhase(s, key)
    ensures Inv(cfg, Stop(s, key, error))
  {
    if HoldsPermit(s.inflight[key].phase) {
      PhasedInv(cfg, s, key, Settling(Err(error)), s.permits + 1);
    } else {
      PhasedKeepsPermits(cfg, s, key, Settling(Err(error)));
    }
  }

  lemma InFlightSound(cfg: Config, s: State, key: ResourceKey)
    requires Inv(cfg, s) && InPhase(s, key)
    ensures SoundPrevious(cfg, key, s.inflight[key].previous) && SoundPhase(cfg, key, s.inflight[key].phase)
  {
  }

  lemma SettledWith(
    cfg: Config, s: State, key: ResourceKey, circuits: map<ResourceKey, Circuit>, outcome: Outcome)
    requires Inv(cfg, s) && InPhase(s, key) && s.inflight[key].phase.Settling?
    requires SoundResult(cfg, key, outcome.result)
    requires forall k :: k in circuits && k != key ==> k in s.circuits && circuits[k] == s.circuits[k]
    ensures Inv(cfg, Phased(s.(circuits := circuits), key, Delivering(outcome)))
  {
    CircuitSetInv(cfg, s, key, circuits);
    PhasedKeepsPermits(cfg, s.(circuits := circuits), key, Delivering(outcome));
  }

  lemma SettleInv(cfg: Config, s: State, key: ResourceKey)
    requires Inv(cfg, s) && InPhase(s, key) && s.inflight[key].phase.Settling?
    ensures Inv(cfg, DoSettle(s, key))
  {
    InFlightSound(cfg, s, key);
    var result := s.inflight[key].phase.result;
    SettledWith(cfg, s, key, SettledCircuits(s, key, result), SettledOutcome(s, key, result));
  }

  lemma BuiltSound(
    cfg: Config, key: ResourceKey, previous: Previous, response: Response, wall: int, id: nat)
    requires SoundPrevious(cfg, key, previous)
    ensures SoundResult(cfg, key, FromResponse(cfg.lib, key, previous, response, wall, id))
  {
  }

  lemma ReceiveInv(cfg: Config, s: State, key: ResourceKey, response: Response, wall: int)
    requires Inv(cfg, s) && InPhase(s, key) && s.inflight[key].phase.Fetching?
    ensures Inv(cfg, DoReceive(cfg, s, key, response, wall))
  {
    var r := s.inflight[key];
    InFlightSound(cfg, s, key);
    BuiltSound(cfg, key, r.previous, response, wall, r.id);
    var built := FromResponse(cfg.lib, key, r.previous, response, wall, r.id);
    if built.Ok? {
      PastCheckClosed(cfg, s, key);
      PhasedKeepsPermits(cfg, s, key, Publishing(built.value));
    } else {
      StopInv(cfg, s, key, built.error);
    }
  }

  lemma ReleasedInv(cfg: Config, s: State, key: ResourceKey, rep: Representation)
    requires Inv(cfg, s) && InPhase(s, key) && HoldsPermit(s.inflight[key].phase) && SoundRep(cfg, key, rep)
    ensures Inv(cfg, Release(s, key, Settling(Ok(rep))))
  {
    PhasedInv(cfg, s, key, Settling(Ok(rep)), s.permits + 1);
  }

  lemma PublishInv(cfg: Config, s: State, key: ResourceKey)
    requires Inv(cfg, s) && InPhase(s, key) && s.inflight[key].phase.Publishing?
    ensures Inv(cfg, DoPublish(s, key))
  {
    var rep := s.inflight[key].phase.rep;
    InFlightSound(cfg, s, key);
    ReleasedInv(cfg, s, key, rep);
    PublishedSound(cfg, s, key, rep);
    RepsInv(cfg, Release(s, key, Settling(Ok(rep))),
            if rep.policy.storable then s.reps[key := rep] else s.reps - {key});
  }

  lemma PublishedSound(cfg: Config, s: State, key: ResourceKey, rep: Representation)
    requires SoundReps(cfg, s.reps) && SoundRep(cfg, key, rep)
    ensures SoundReps(cfg, if rep.policy.storable then s.reps[key := rep] else s.reps - {key})
  {
  }

  lemma DeliveredRefreshes(cfg: Config, s: State, key: ResourceKey, d: Done)
    requires Inv(cfg, s) && InPhase(s, key) && !HoldsPermit(s.inflight[key].phase)
    ensures RefreshInv(cfg, s.clock, s.permits, s.circuits, s.inflight - {key}, s.keyOf,
                       s.done[s.inflight[key].id := d], s.active)
  {
    var inflight := s.inflight - {key};
    HoldersWithout(s.inflight, key);
    forall k | k in inflight ensures LeadBy(k, inflight[k], s.active) {
      assert LeadBy(k, s.inflight[k], s.active);
    }
  }

  lemma DeliveredHistory(cfg: Config, s: State, id: nat, d: Done)
    requires Inv(cfg, s) && id !in s.done && id in s.keyOf && s.keyOf[id] == d.key
    requires SoundResult(cfg, d.key, d.outcome.result)
    ensures HistoryInv(cfg, s.nextRefresh, s.keyOf, s.done[id := d], s.served, s.answers)
    ensures StoreFromDone(s.outcomes[d.key := id], s.done[id := d])
  {
    forall i | 0 <= i < |s.served| ensures Justified(cfg, s.done[id := d], s.served[i]) {
      assert Justified(cfg, s.done, s.served[i]);
    }
  }

  lemma DeliverInv(cfg: Config, s: State, key: ResourceKey)
    requires Inv(cfg, s) && InPhase(s, key) && s.inflight[key].phase.Delivering?
    ensures Inv(cfg, DoDeliver(s, key))
  {
    var r := s.inflight[key];
    var d := Done(key, r.phase.outcome);
    InFlightSound(cfg, s, key);
    DeliveredRefreshes(cfg, s, key, d);
    DeliveredHistory(cfg, s, r.id, d);
  }

  // Steps of a request.

  lemma LookUpInv(cfg: Config, s: State, who: nat, wall: int)
    requires Inv(cfg, s) && At(s, who) && s.active[who].pc.Start?
    ensures Inv(cfg, DoLookUp(s, who, wall))
  {
    NotLeading(cfg, s, who);
    var key := s.active[who].key;
    var previous := RepOf(s, key);
    assert SoundPrevious(cfg, key, previous);
    if previous.Some? && FreshAt(previous.value, wall) {
      EndLoadInv(cfg, s, who, Ok(previous.value), wall, None);
    } else {
      MoveInv(cfg, s, who, Reading(previous, wall));
    }
  }

  /** A load past its lookup moves on with what it found. */
  lemma MidwayInv(cfg: Config, s: State, who: nat, pc: Pc)
    requires Inv(cfg, s) && At(s, who) && Midway(s.active[who].pc) && LeadsNone(s, who)
    requires Midway(pc) && !pc.Awaiting? && pc.previous == s.active[who].pc.previous
    ensures Inv(cfg, Move(s, who, pc))
  {
    assert SoundPc(cfg, s.active[who].key, s.active[who].pc);
    MoveInv(cfg, s, who, pc);
  }

  lemma OutcomeOfKey(s: State, key: ResourceKey)
    requires StoreFromDone(s.outcomes, s.done) && HasOutcome(s, key)
    ensures s.done[s.outcomes[key]].key == key
  {
  }

  lemma ReadOutcomeInv(cfg: Config, s: State, who: nat)
    requires Inv(cfg, s) && At(s, who) && s.active[who].pc.Reading?
    ensures Inv(cfg, DoReadOutcome(s, who))
  {
    NotLeading(cfg, s, who);
    var a := s.active[who];
    if !HasOutcome(s, a.key) {
      MidwayInv(cfg, s, who, Getting(a.pc.previous, a.pc.wall));
    } else if s.done[s.outcomes[a.key]].outcome.validUntil > s.clock {
      OutcomeOfKey(s, a.key);
      EndViaInv(cfg, s, who, s.outcomes[a.key]);
    } else {
      MidwayInv(cfg, s, who, Invalidating(a.pc.previous, a.pc.wall));
    }
  }

  lemma InvalidateInv(cfg: Config, s: State, who: nat)
    requires Inv(cfg, s) && At(s, who) && s.active[who].pc.Invalidating?
    ensures var a := s.active[who];
            Inv(cfg, Move(s, who, Getting(a.pc.previous, a.pc.wall)).(outcomes := s.outcomes - {a.key}))
  {
    NotLeading(cfg, s, who);
    var a := s.active[who];
    assert SoundPc(cfg, a.key, a.pc);
    MoveInv(cfg, s, who, Getting(a.pc.previous, a.pc.wall));
    OutcomesInv(cfg, Move(s, who, Getting(a.pc.previous, a.pc.wall)), a.key);
  }

  lemma LedMore(
    inflight: map<ResourceKey, Refresh>, active: map<nat, Active>, who: nat, a: Active, r: Refresh)
    requires Led(inflight, active)
    requires forall k :: k in inflight ==> inflight[k].leader != who
    requires a.key !in inflight && LeadBy(a.key, r, active[who := a])
    ensures Led(inflight[a.key := r], active[who := a])
  {
    LedKept(inflight, active, active[who := a], who);
  }

  lemma LeadRefreshes(cfg: Config, s: State, who: nat, a: Active, r: Refresh)
    requires RefreshInv(cfg, s.clock, s.permits, s.circuits, s.inflight, s.keyOf, s.done, s.active)
    requires LeadsNone(s, who)
    requires a.key !in s.inflight && a.pc.Awaiting? && a.pc.id == r.id && r.leader == who
    requires r.id !in s.keyOf && r.id !in s.done && r.phase.Checking? && SoundPrevious(cfg, a.key, r.previous)
    ensures RefreshInv(cfg, s.clock, s.permits, s.circuits, s.inflight[a.key := r], s.keyOf[r.id := a.key],
                       s.done, s.active[who := a])
  {
    var inflight := s.inflight[a.key := r];
    HoldersChanged(s.inflight, a.key, r);
    LedMore(s.inflight, s.active, who, a, r);
    assert SoundPhase(cfg, a.key, r.phase);
    assert NumberedInFlight(s.keyOf[r.id := a.key], inflight, s.done);
    assert ClosedPastCheck(s.clock, s.circuits, inflight);
  }

  lemma LeadRequests(
    cfg: Config, next: nat, handlers: nat, keyOf: map<nat, ResourceKey>, active: map<nat, Active>,
    who: nat, a: Active, id: nat)
    requires RequestInv(cfg, next, handlers, keyOf, active) && id !in keyOf && who in active
    requires a == active[who].(pc := a.pc) && SoundPc(cfg, a.key, a.pc) && a.pc.Awaiting? && a.pc.id == id
    ensures RequestInv(cfg, next, handlers, keyOf[id := a.key], active[who := a])
  {
    assert active[who := a].Keys == active.Keys;
    assert RoutedRequest(cfg, active[who]);
  }

  lemma LeadHistory(cfg: Config, s: State, key: ResourceKey)
    requires HistoryInv(cfg, s.nextRefresh, s.keyOf, s.done, s.served, s.answers)
    ensures s.nextRefresh !in s.keyOf && s.nextRefresh !in s.done
    ensures HistoryInv(cfg, s.nextRefresh + 1, s.keyOf[s.nextRefresh := key], s.done, s.served, s.answers)
  {
    assert s.nextRefresh !in s.keyOf && s.nextRefresh !in s.done;
  }

  /** A request that starts a refresh leads it. */
  lemma LeadInv(cfg: Config, s: State, who: nat)
    requires Inv(cfg, s) && At(s, who) && s.active[who].pc.Getting? && LeadsNone(s, who)
    requires !HasOutcome(s, s.active[who].key) && !InPhase(s, s.active[who].key)
    ensures Inv(cfg, DoGetWith(s, who))
  {
    var a := s.active[who];
    assert SoundPc(cfg, a.key, a.pc);
    var a' := a.(pc := Awaiting(s.nextRefresh, a.pc.previous, a.pc.wall));
    LeadHistory(cfg, s, a.key);
    LeadRequests(cfg, s.nextRequest, s.handlers, s.keyOf, s.active, who, a', s.nextRefresh);
    LeadRefreshes(cfg, s, who, a', Refresh(s.nextRefresh, who, a.pc.previous, Checking));
  }

  lemma GetWithInv(cfg: Config, s: State, who: nat)
    requires Inv(cfg, s) && At(s, who) && s.active[who].pc.Getting?
    ensures Inv(cfg, DoGetWith(s, who))
  {
    NotLeading(cfg, s, who);
    var a := s.active[who];
    assert SoundPc(cfg, a.key, a.pc);
    if HasOutcome(s, a.key) {
      EndViaInv(cfg, s, who, s.outcomes[a.key]);
    } else if InPhase(s, a.key) {
      MoveInv(cfg, s, who, Awaiting(s.inflight[a.key].id, a.pc.previous, a.pc.wall));
    } else {
      LeadInv(cfg, s, who);
    }
  }

  lemma CollectInv(cfg: Config, s: State, who: nat)
    requires Inv(cfg, s) && At(s, who) && s.active[who].pc.Awaiting? && s.active[who].pc.id in s.done
    ensures Inv(cfg, EndVia(s, who, s.active[who].pc.id))
  {
    NotLeading(cfg, s, who);
    EndViaInv(cfg, s, who, s.active[who].pc.id);
  }

  /** A resource that fits its key never leads into one of the mismatch branches. */
  lemma FitsNeverMismatches(lib: Library, key: ResourceKey, resource: ParsedResource)
    requires FitsKey(lib, key, resource)
    ensures !AfterLoad(key.kind, resource).Mismatch?
    ensures AfterLoad(key.kind, resource).LoadNext? ==> AfterLoad(key.kind, resource).key.kind.JwksKind?
    ensures AfterLoad(key.kind, resource).Keys? && IsDirectoryUrl(key.url) && key.kind.JwksKind? ==>
              DirectoryKeys(lib, AfterLoad(key.kind, resource).keys)
  {
  }

  /** Directory discovery is only ever routed to directory URLs. */
  ghost predicate DirectoryRouting(cfg: Config) {
    forall r :: cfg.validate(r).Ok? && r.discovery.Directory? ==> IsDirectoryUrl(cfg.validate(r).value.fetchUrl)
  }

  lemma ConcludeInv(cfg: Config, s: State, who: nat)
    requires Inv(cfg, s) && At(s, who) && s.active[who].pc.Ended? && DirectoryRouting(cfg)
    ensures Inv(cfg, DoConclude(cfg, s, who))
  {
    NotLeading(cfg, s, who);
    var a := s.active[who];
    assert SoundPc(cfg, a.key, a.pc) && RoutedRequest(cfg, a);
    if a.pc.result.Err? {
      FinishInv(cfg, s, who, Err(a.pc.result.error));
    } else {
      var resource := a.pc.result.value.resource;
      FitsNeverMismatches(cfg.lib, a.key, resource);
      var onward := AfterLoad(a.key.kind, resource);
      if onward.Keys? {
        if a.request.discovery.Directory? {
          SelectKeyInDirectory(cfg.lib, onward.keys, a.request.keyId);
        }
        FinishInv(cfg, s, who, Ok(Respond(cfg.lib, a.target, onward.keys, a.request.keyId)));
      } else {
        NextLoadInv(cfg, s, who, onward.key);
      }
    }
  }

  lemma NextLoadInv(cfg: Config, s: State, who: nat, key: ResourceKey)
    requires Inv(cfg, s) && At(s, who) && LeadsNone(s, who)
    requires s.active[who].request.discovery.Cimd? && key.kind.JwksKind?
    ensures Inv(cfg, s.(active := s.active[who := s.active[who].(key := key, pc := Start)]))
  {
    assert RoutedRequest(cfg, s.active[who]);
    ReplaceInv(cfg, s, who, s.active[who].(key := key, pc := Start));
  }

  lemma CancelInv(cfg: Config, s: State, who: nat)
    requires Inv(cfg, s) && At(s, who)
    ensures Inv(cfg, Finish(Abort(s, who), who, Err(Plain(Timeout))))
  {
    AbortInv(cfg, s, who);
    FinishInv(cfg, Abort(s, who), who, Err(Plain(Timeout)));
  }

  lemma HandlerTaken(cfg: Config, handlers: nat, active: map<nat, Active>, who: nat, a: Active)
    requires HandlersConserved(cfg, handlers, active) && handlers > 0 && who !in active
    ensures HandlersConserved(cfg, handlers - 1, active[who := a])
  {
    assert active[who := a].Keys == active.Keys + {who};
  }

  lemma AcceptedRequests(
    cfg: Config, next: nat, handlers: nat, keyOf: map<nat, ResourceKey>, active: map<nat, Active>, a: Active)
    requires RequestInv(cfg, next, handlers, keyOf, active) && handlers > 0
    requires a.pc.Start? && RoutedRequest(cfg, a)
    ensures next !in active
    ensures RequestInv(cfg, next + 1, handlers - 1, keyOf, active[next := a])
  {
    assert next !in active;
    HandlerTaken(cfg, handlers, active, next, a);
  }

  lemma LedWithOneMore(inflight: map<ResourceKey, Refresh>, active: map<nat, Active>, who: nat, a: Active)
    requires Led(inflight, active) && who !in active
    ensures Led(inflight, active[who := a])
  {
    forall k | k in inflight ensures LeadBy(k, inflight[k], active[who := a]) {
      assert LeadBy(k, inflight[k], active);
    }
  }

  lemma AnsweredAtOnceInv(cfg: Config, s: State, a: Answer)
    requires Inv(cfg, s) && CorrectAnswer(cfg, a)
    ensures Inv(cfg, s.(nextRequest := s.nextRequest + 1, answers := s.answers[s.nextRequest := a]))
  {
    assert AnswersCorrect(cfg, s.answers[s.nextRequest := a]);
  }

  lemma AdmittedInv(cfg: Config, s: State, a: Active)
    requires Inv(cfg, s) && s.handlers > 0 && a.pc.Start? && RoutedRequest(cfg, a)
    ensures Inv(cfg, s.(handlers := s.handlers - 1, nextRequest := s.nextRequest + 1,
                        active := s.active[s.nextRequest := a]))
  {
    AcceptedRequests(cfg, s.nextRequest, s.handlers, s.keyOf, s.active, a);
    LedWithOneMore(s.inflight, s.active, s.nextRequest, a);
  }

  lemma AcceptInv(cfg: Config, s: State, request: ResolveRequest)
    requires Inv(cfg, s)
    ensures Inv(cfg, DoAccept(cfg, s, request))
  {
    var result := AtOnce(cfg, s, request);
    if result.Some? {
      AnsweredAtOnceInv(cfg, s, Answer(request, result.value));
    } else {
      var target := cfg.validate(request).value;
      AdmittedInv(cfg, s, Active(request, target, FirstKey(request, target), Start));
    }
  }

  // Every step, every run.

  lemma RejoinInv(cfg: Config, s: State, who: nat)
    requires Inv(cfg, s) && At(s, who) && RequestCan(s, who, Rejoin)
    ensures var pc := s.active[who].pc;
            Inv(cfg, Move(s, who, Getting(pc.previous, pc.wall)))
  {
    NotLeading(cfg, s, who);
    var a := s.active[who];
    assert SoundPc(cfg, a.key, a.pc);
    MoveInv(cfg, s, who, Getting(a.pc.previous, a.pc.wall));
  }

  lemma CheckInv(cfg: Config, s: State, key: ResourceKey)
    requires Inv(cfg, s) && InPhase(s, key) && s.inflight[key].phase.Checking?
    ensures Inv(cfg, DoCheck(s, key))
  {
    if IsOpen(CircuitOf(s, key), s.clock) {
      StopInv(cfg, s, key, Plain(CircuitOpen));
    } else {
      PhasedKeepsPermits(cfg, s, key, Cleared);
    }
  }

  lemma PastCheckClosed(cfg: Config, s: State, key: ResourceKey)
    requires Inv(cfg, s) && InPhase(s, key) && PastCheck(s.inflight[key].phase)
    ensures !IsOpen(CircuitOf(s, key), s.clock)
  {
  }

  lemma AcquireInv(cfg: Config, s: State, key: ResourceKey)
    requires Inv(cfg, s) && InPhase(s, key) && s.inflight[key].phase.Cleared? && s.permits > 0
    ensures Inv(cfg, DoAcquire(s, key))
  {
    PastCheckClosed(cfg, s, key);
    PhasedInv(cfg, s, key, Admitting, s.permits - 1);
  }

  lemma AdmitInv(cfg: Config, s: State, key: ResourceKey)
    requires Inv(cfg, s) && InPhase(s, key) && s.inflight[key].phase.Admitting?
    ensures Inv(cfg, Phased(s, key, Fetching))
  {
    PastCheckClosed(cfg, s, key);
    PhasedKeepsPermits(cfg, s, key, Fetching);
  }

  lemma RequestStepInv(cfg: Config, s: State, who: nat, step: RequestStep)
    requires Inv(cfg, s) && At(s, who) && RequestCan(s, who, step) && DirectoryRouting(cfg)
    ensures Inv(cfg, DoRequest(cfg, s, who, step))
  {
    match step
    case LookUp(wall) => LookUpInv(cfg, s, who, wall);
    case ReadOutcome => ReadOutcomeInv(cfg, s, who);
    case Invalidate => InvalidateInv(cfg, s, who);
    case GetWith => GetWithInv(cfg, s, who);
    case Collect => CollectInv(cfg, s, who);
    case Rejoin => RejoinInv(cfg, s, who);
    case Conclude => ConcludeInv(cfg, s, who);
    case Cancel => CancelInv(cfg, s, who);
  }

  lemma FetchStepInv(cfg: Config, s: State, key: ResourceKey, step: FetchStep)
    requires Inv(cfg, s) && InPhase(s, key) && FetchCan(s, key, step)
    ensures Inv(cfg, DoFetch(s, key, step))
  {
    match step
    case CheckCircuit => CheckInv(cfg, s, key);
    case Refuse(error) => StopInv(cfg, s, key, error);
    case Acquire => AcquireInv(cfg, s, key);
    case Deny => StopInv(cfg, s, key, Plain(RateLimited));
    case Admit => AdmitInv(cfg, s, key);
  }

  lemma FinishStepInv(cfg: Config, s: State, key: ResourceKey, step: FinishStep)
    requires Inv(cfg, s) && InPhase(s, key) && FinishCan(s, key, step)
    ensures Inv(cfg, DoFinish(cfg, s, key, step))
  {
    match step
    case Fail(error) => StopInv(cfg, s, key, error);
    case Receive(response, wall) => ReceiveInv(cfg, s, key, response, wall);
    case Publish => PublishInv(cfg, s, key);
    case SettleCircuit => SettleInv(cfg, s, key);
    case Deliver => DeliverInv(cfg, s, key);
  }

  lemma LoseStepInv(cfg: Config, s: State, key: ResourceKey, store: Store)
    requires Inv(cfg, s)
    ensures Inv(cfg, DoLose(s, key, store))
  {
    match store
    case RepresentationStore => RepsInv(cfg, s, s.reps - {key});
    case RefreshStore => OutcomesInv(cfg, s, key);
    case CircuitStore => CircuitDroppedInv(cfg, s, key);
  }

  lemma StepInv(cfg: Config, s: State, a: Action)
    requires Inv(cfg, s) && Enabled(s, a) && DirectoryRouting(cfg)
    ensures Inv(cfg, Apply(cfg, s, a))
  {
    match a
    case Tick(elapsed) => TickInv(cfg, s, elapsed);
    case Accept(request) => AcceptInv(cfg, s, request);
    case OfRequest(who, step) => RequestStepInv(cfg, s, who, step);
    case ToFetch(key, step) => FetchStepInv(cfg, s, key, step);
    case FromFetch(key, step) => FinishStepInv(cfg, s, key, step);
    case Lose(key, store) => LoseStepInv(cfg, s, key, store);
  }

  lemma {:induction false} AlwaysInv(cfg: Config, actions: seq<Action>)
    requires DirectoryRouting(cfg)
    ensures Inv(cfg, After(cfg, actions))
  {
    if actions != [] {
      var n := |actions| - 1;
      AlwaysInv(cfg, actions[..n]);
      var s, a := After(cfg, actions[..n]), actions[n];
      if Enabled(s, a) {
        StepInv(cfg, s, a);
      }
    }
  }

  // What this means, for every run.

  lemma HonestRouting(cfg: Config)
    requires Honest(cfg)
    ensures DirectoryRouting(cfg)
  {
    forall r | cfg.validate(r).Ok? && r.discovery.Directory?
      ensures IsDirectoryUrl(cfg.validate(r).value.fetchUrl)
    {
      HonestTarget(cfg, r);
    }
  }

  lemma HonestTarget(cfg: Config, r: ResolveRequest)
    requires Honest(cfg) && cfg.validate(r).Ok?
    ensures TargetOf(cfg.lib.url, r.agentUrl, r.discovery) == Ok(cfg.validate(r).value)
    ensures r.discovery.Directory? ==> IsDirectoryUrl(cfg.validate(r).value.fetchUrl)
  {
    assert cfg.validate(r) == ValidateRequest(cfg.lib, r);
  }

  /**
   In every interleaving outbound permits are conserved: the free ones and those of refreshes in
   flight make up the limit, every refresh in flight is led by a live request that waits for it,
   and handler permits are conserved likewise.
   */
  lemma PermitsAlwaysConserved(cfg: Config, actions: seq<Action>)
    requires Honest(cfg)
    ensures var s := After(cfg, actions);
            && s.permits + |Holders(s.inflight)| == cfg.outboundFetches
            && s.handlers + |s.active| == cfg.activeHandlers
            && (forall k :: k in s.inflight ==> LeadBy(k, s.inflight[k], s.active))
  {
    HonestRouting(cfg);
    AlwaysInv(cfg, actions);
    var s := After(cfg, actions);
    assert |s.active| == |s.active.Keys|;
  }

  /** In every interleaving no fetch starts, or goes on, while its key's circuit is open. */
  lemma NoFetchWhileOpen(cfg: Config, actions: seq<Action>, key: ResourceKey)
    requires Honest(cfg) && InPhase(After(cfg, actions), key)
    requires var phase := After(cfg, actions).inflight[key].phase;
             phase.Cleared? || phase.Admitting? || phase.Fetching?
    ensures !IsOpen(CircuitOf(After(cfg, actions), key), After(cfg, actions).clock)
  {
    HonestRouting(cfg);
    AlwaysInv(cfg, actions);
    PastCheckClosed(cfg, After(cfg, actions), key);
  }

  /** In every reachable state each stored representation is storable and fits its key. */
  lemma StoredAlwaysFits(cfg: Config, actions: seq<Action>, key: ResourceKey)
    requires Honest(cfg) && key in After(cfg, actions).reps
    ensures var rep := After(cfg, actions).reps[key];
            rep.policy.storable && FitsKey(cfg.lib, key, rep.resource) && BoundedWindow(rep)
  {
    HonestRouting(cfg);
    AlwaysInv(cfg, actions);
    assert SoundPrevious(cfg, key, Some(After(cfg, actions).reps[key]));
  }

  /**
   In every interleaving, whatever a load answers with fits the key. Answered without consulting a
   refresh, it is storable, fresh and less than a day old. Answered after consulting a completed
   refresh of the key, it is what that refresh gave; or that same refresh failed with a transient
   error or an open circuit, and the answer is storable and within its stale window, which ends at
   most two days after it was stored.
   */
  lemma ServedAlwaysJustified(cfg: Config, actions: seq<Action>, i: nat)
    requires Honest(cfg) && i < |After(cfg, actions).served|
    ensures var done := After(cfg, actions).done;
            var a := After(cfg, actions).served[i];
            var age := a.wall - a.rep.storedAt;
            && FitsKey(cfg.lib, a.key, a.rep.resource)
            && (a.via.None? ==> a.rep.policy.storable && a.rep.policy.freshAt(a.wall) && age < MAX_FRESHNESS)
            && (a.via.Some? ==>
                  && a.via.value in done && done[a.via.value].key == a.key
                  && (done[a.via.value].outcome.result.Ok? ==> done[a.via.value].outcome.result.value == a.rep)
                  && (done[a.via.value].outcome.result.Err? ==>
                        && Class(done[a.via.value].outcome.result.error) in {Transient, Open}
                        && a.rep.policy.storable && a.rep.staleIfError.Some?
                        && 0 <= age <= a.rep.freshFor + a.rep.staleIfError.value <= 2 * MAX_FRESHNESS))
  {
    HonestRouting(cfg);
    AlwaysInv(cfg, actions);
    assert Justified(cfg, After(cfg, actions).done, After(cfg, actions).served[i]);
  }

  lemma EndedFits(cfg: Config, s: State, who: nat)
    requires Inv(cfg, s) && At(s, who) && s.active[who].pc.Ended? && s.active[who].pc.result.Ok?
    ensures FitsKey(cfg.lib, s.active[who].key, s.active[who].pc.result.value.resource)
  {
    assert SoundPc(cfg, s.active[who].key, s.active[who].pc);
  }

  /** In every interleaving the impossible-resource branches after a load are never taken. */
  lemma NeverMismatched(cfg: Config, actions: seq<Action>, who: nat)
    requires Honest(cfg) && At(After(cfg, actions), who)
    requires var pc := After(cfg, actions).active[who].pc; pc.Ended? && pc.result.Ok?
    ensures var a := After(cfg, actions).active[who];
            !AfterLoad(a.key.kind, a.pc.result.value.resource).Mismatch?
  {
    HonestRouting(cfg);
    AlwaysInv(cfg, actions);
    EndedFits(cfg, After(cfg, actions), who);
    var a := After(cfg, actions).active[who];
    FitsNeverMismatches(cfg.lib, a.key, a.pc.result.value.resource);
  }

  /**
   In every interleaving a positive answer names the identifier of the request, and for directory
   discovery a resolved key has the requested thumbprint.
   */
  lemma AnswersAlwaysCorrect(cfg: Config, actions: seq<Action>, who: nat)
    requires Honest(cfg) && who in After(cfg, actions).answers
    requires After(cfg, actions).answers[who].result.Ok?
    ensures var a := After(cfg, actions).answers[who];
            var target := TargetOf(cfg.lib.url, a.request.agentUrl, a.request.discovery);
            && target.Ok?
            && a.result.value.normalizedIdentifier == target.value.normalizedIdentifier
            && (a.request.discovery.Directory? && a.result.value.Resolved? ==>
                  cfg.lib.thumbprint(a.result.value.jwk.x) == a.request.keyId)
  {
    HonestRouting(cfg);
    AlwaysInv(cfg, actions);
    var a := After(cfg, actions).answers[who];
    assert CorrectAnswer(cfg, a);
    HonestTarget(cfg, a.request);
  }

  /**
   In every interleaving, the load of a directory request that gives a resource gives keys, and
   concluding it answers with a key exactly when one of them has the requested thumbprint.
   */
  lemma DirectoryAnswersExact(cfg: Config, actions: seq<Action>, who: nat)
    requires Honest(cfg) && At(After(cfg, actions), who)
    requires var a := After(cfg, actions).active[who];
             a.request.discovery.Directory? && a.pc.Ended? && a.pc.result.Ok?
    ensures ExactConclusion(cfg, After(cfg, actions), who)
  {
    HonestRouting(cfg);
    AlwaysInv(cfg, actions);
    ConcludesExactly(cfg, After(cfg, actions), who);
  }

  ghost predicate ExactConclusion(cfg: Config, s: State, who: nat)
    requires At(s, who) && s.active[who].pc.Ended? && s.active[who].pc.result.Ok?
  {
    var a := s.active[who];
    var resource := a.pc.result.value.resource;
    var answers := DoConclude(cfg, s, who).answers;
    && resource.JwksResource?
    && who in answers && answers[who].result.Ok?
    && (answers[who].result.value.Resolved? <==> HasThumbprint(cfg.lib, resource.keys, a.request.keyId))
  }

  lemma ConcludesExactly(cfg: Config, s: State, who: nat)
    requires Inv(cfg, s) && DirectoryRouting(cfg) && At(s, who)
    requires s.active[who].request.discovery.Directory?
    requires s.active[who].pc.Ended? && s.active[who].pc.result.Ok?
    ensures ExactConclusion(cfg, s, who)
  {
    var a := s.active[who];
    assert SoundPc(cfg, a.key, a.pc) && RoutedRequest(cfg, a);
    var resource := a.pc.result.value.resource;
    FitsNeverMismatches(cfg.lib, a.key, resource);
    SelectKeyInDirectory(cfg.lib, resource.keys, a.request.keyId);
  }

  // Requests, told without the machine's own words.

  /** A request is valid exactly when its key id has 1 to 512 bytes and its URL is accepted; then its target is the URL's. */
  lemma ValidIff(lib: Library, r: ResolveRequest)
    ensures var v := ValidateRequest(lib, r);
            && (v.Ok? <==> 1 <= |r.keyId| <= 512 && FetchOf(lib.url, r.agentUrl, r.discovery).Ok?)
            && (v.Ok? ==> v.value.fetchUrl == FetchOf(lib.url, r.agentUrl, r.discovery).value)
            && (v.Err? ==> v.error == FetchError(BadRequest, None, None))
  {
  }

  /** A request is answered at once without a free handler, if it is invalid, and for a test key. */
  lemma AtOnceExact(cfg: Config, s: State, r: ResolveRequest)
    ensures var answer := AtOnce(cfg, s, r);
            && (s.handlers == 0 ==> answer == Some(Err(FetchError(Overloaded, None, None))))
            && (s.handlers > 0 && cfg.validate(r).Err? ==> answer == Some(Err(cfg.validate(r).error)))
            && (s.handlers > 0 && cfg.validate(r).Ok? && r.keyId in cfg.testKeys ==>
                  answer == Some(Ok(KeyNotFound(cfg.validate(r).value.normalizedIdentifier))))
            && (answer.None? <==> s.handlers > 0 && cfg.validate(r).Ok? && r.keyId !in cfg.testKeys)
  {
  }

  /** Any other request starts a load: of a metadata document for CIMD discovery, of a key set otherwise. */
  lemma AcceptExact(cfg: Config, s: State, r: ResolveRequest)
    ensures var s', who := DoAccept(cfg, s, r), s.nextRequest;
            && (AtOnce(cfg, s, r).Some? ==> who in s'.answers && s'.answers[who] == Answer(r, AtOnce(cfg, s, r).value))
            && (AtOnce(cfg, s, r).None? ==>
                  && At(s', who) && s'.active[who].pc.Start? && Ok(s'.active[who].target) == cfg.validate(r)
                  && s'.active[who].key.url == s'.active[who].target.fetchUrl
                  && (s'.active[who].key.kind.CimdKind? <==> r.discovery.Cimd?))
  {
  }

  /** The keys a resource itself holds. */
  function KeysIn(resource: ParsedResource): Option<seq<KeyEntry>> {
    match resource
    case JwksResource(keys) => Some(keys)
    case CimdDocument(cimd) => cimd.inlineJwks
  }

  /**
   A load that gave a resource is followed by an answer from its keys, or, for a metadata document
   that names a key set, by a load of that key set.
   */
  lemma ConcludeExact(cfg: Config, s: State, who: nat, resource: ParsedResource)
    requires At(s, who) && s.active[who].pc.Ended? && s.active[who].pc.result.Ok?
    requires resource == s.active[who].pc.result.value.resource && FitsKey(cfg.lib, s.active[who].key, resource)
    ensures var a, s' := s.active[who], DoConclude(cfg, s, who);
            match KeysIn(resource)
            case None =>
              && resource.CimdDocument? && resource.cimd.jwksUri.Some? && At(s', who)
              && s'.active[who] == a.(key := ResourceKey(resource.cimd.jwksUri.value, JwksKind), pc := Start)
            case Some(keys) =>
              var selected, id := SelectKey(cfg.lib, keys, a.request.keyId), a.target.normalizedIdentifier;
              && who !in s'.active && who in s'.answers
              && s'.answers[who] == Answer(a.request, Ok(if selected.Some? then Resolved(id, selected.value) else KeyNotFound(id)))
  {
  }

  /** A load that failed ends its request with that error, and a request cut off ends in a timeout. */
  lemma FailureExact(cfg: Config, s: State, who: nat)
    requires At(s, who)
    ensures s.active[who].pc.Ended? && s.active[who].pc.result.Err? ==>
              var answers := DoConclude(cfg, s, who).answers;
              who in answers && answers[who] == Answer(s.active[who].request, Err(s.active[who].pc.result.error))
    ensures var s' := DoRequest(cfg, s, who, Cancel);
            && who !in s'.active && who in s'.answers
            && s'.answers[who] == Answer(s.active[who].request, Err(FetchError(Timeout, None, None)))
  {
  }
}
