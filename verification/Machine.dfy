/**
 The resolver as a state machine: any number of requests, interleaved in any order at the points
 where the code gives up control, over shared stores, permits and circuits. A refresh store entry
 is computed by at most one refresh in flight per key; everybody who waits for it gets its outcome,
 and when its leader is cancelled one of the others starts again.
 */
module Machine {
  import opened Wrappers
  import opened Fetch
  import opened Discovery
  import opened Resource
  import opened Wire
  import opened Representations
  import opened Circuits
  import opened Loads

  /** The resolver's settings; `validate` is the request check it was built with. */
  datatype Config = Config(
    lib: Library, validate: ResolveRequest -> Result<DiscoveryTarget, FetchError>,
    activeHandlers: nat, outboundFetches: nat, testKeys: set<string>)

  ghost predicate Honest(cfg: Config) {
    forall r :: cfg.validate(r) == ValidateRequest(cfg.lib, r)
  }

  // Request validation and routing.

  function ValidateRequest(lib: Library, r: ResolveRequest): Result<DiscoveryTarget, FetchError> {
    if r.keyId == "" || |r.keyId| > MAX_KEY_ID_BYTES || |r.agentUrl| > MAX_AGENT_URL_BYTES then
      Err(Plain(BadRequest))
    else match TargetOf(lib.url, r.agentUrl, r.discovery)
      case Err(_) => Err(Plain(BadRequest))
      case Ok(target) => Ok(target)
  }

  function FirstKey(r: ResolveRequest, target: DiscoveryTarget): ResourceKey {
    ResourceKey(target.fetchUrl, if r.discovery.Cimd? then CimdKind else JwksKind)
  }

  /** What follows a load that gave a resource: the keys, a second load, or an impossible resource. */
  datatype Onward = Keys(keys: seq<KeyEntry>) | LoadNext(key: ResourceKey) | Mismatch

  function AfterLoad(kind: ResourceKind, resource: ParsedResource): Onward {
    match kind
    case JwksKind => if resource.JwksResource? then Keys(resource.keys) else Mismatch
    case CimdKind =>
      if !resource.CimdDocument? then Mismatch
      else if resource.cimd.inlineJwks.Some? then Keys(resource.cimd.inlineJwks.value)
      else if resource.cimd.jwksUri.Some? then LoadNext(ResourceKey(resource.cimd.jwksUri.value, JwksKind))
      else Mismatch
  }

  function Respond(lib: Library, target: DiscoveryTarget, keys: seq<KeyEntry>, keyId: string): ResolveResponse {
    match SelectKey(lib, keys, keyId)
    case Some(jwk) => Resolved(target.normalizedIdentifier, jwk)
    case None => KeyNotFound(target.normalizedIdentifier)
  }

  // State.

  type Previous = Option<Representation>

  type LoadResult = Result<Representation, FetchError>

  /** Where a request stands in its current load. */
  datatype Pc =
    | Start
    | Reading(previous: Previous, wall: int)
    | Invalidating(previous: Previous, wall: int)
    | Getting(previous: Previous, wall: int)
    | Awaiting(id: nat, previous: Previous, wall: int)
    | Ended(result: LoadResult)

  datatype Active = Active(request: ResolveRequest, target: DiscoveryTarget, key: ResourceKey, pc: Pc)

  /** Where a refresh in flight stands; a permit is held from `Admitting` to `Publishing`. */
  datatype Phase =
    | Checking
    | Cleared
    | Admitting
    | Fetching
    | Publishing(rep: Representation)
    | Settling(result: LoadResult)
    | Delivering(outcome: Outcome)

  datatype Refresh = Refresh(id: nat, leader: nat, previous: Previous, phase: Phase)

  /** A completed refresh. */
  datatype Done = Done(key: ResourceKey, outcome: Outcome)

  /**
   A representation that a load answered with, the wall clock of that load, and the completed
   refresh the load consulted, if it did not answer from the representation store at once.
   */
  datatype Served = Served(key: ResourceKey, rep: Representation, wall: int, via: Option<nat>)

  datatype Answer = Answer(request: ResolveRequest, result: Result<ResolveResponse, FetchError>)

  /**
   `outcomes` maps a key to the completed refresh whose outcome the refresh store holds. The
   fields `keyOf`, `done`, `served` and `answers` are histories that no step reads back except
   through the store or a waiting request.
   */
  datatype State = State(
    clock: nat,
    permits: nat,
    handlers: nat,
    reps: map<ResourceKey, Representation>,
    outcomes: map<ResourceKey, nat>,
    circuits: map<ResourceKey, Circuit>,
    inflight: map<ResourceKey, Refresh>,
    active: map<nat, Active>,
    nextRequest: nat,
    nextRefresh: nat,
    keyOf: map<nat, ResourceKey>,
    done: map<nat, Done>,
    served: seq<Served>,
    answers: map<nat, Answer>)

  function Initial(cfg: Config): State {
    State(0, cfg.outboundFetches, cfg.activeHandlers, map[], map[], map[], map[], map[], 0, 0, map[], map[], [], map[])
  }

  predicate HoldsPermit(phase: Phase) {
    phase.Admitting? || phase.Fetching? || phase.Publishing?
  }

  function RepOf(s: State, key: ResourceKey): Previous {
    if key in s.reps then Some(s.reps[key]) else None
  }

  function CircuitOf(s: State, key: ResourceKey): Circuit {
    if key in s.circuits then s.circuits[key] else CLOSED
  }

  // Steps.

  /** What a request does next in its load, or instead of it. */
  datatype RequestStep =
    | LookUp(wall: int)
    | ReadOutcome
    | Invalidate
    | GetWith
    | Collect
    | Rejoin
    | Conclude
    | Cancel

  /** What a refresh in flight does next, up to its fetch and from then on. */
  datatype FetchStep = CheckCircuit | Refuse(error: FetchError) | Acquire | Deny | Admit

  datatype FinishStep =
    | Fail(error: FetchError)
    | Receive(response: Response, wall: int)
    | Publish
    | SettleCircuit
    | Deliver

  datatype Store = RepresentationStore | RefreshStore | CircuitStore

  datatype Action =
    | Tick(elapsed: nat)
    | Accept(request: ResolveRequest)
    | OfRequest(who: nat, step: RequestStep)
    | ToFetch(key: ResourceKey, fetch: FetchStep)
    | FromFetch(key: ResourceKey, finish: FinishStep)
    | Lose(key: ResourceKey, store: Store)

  predicate At(s: State, who: nat) {
    who in s.active
  }

  predicate InPhase(s: State, key: ResourceKey) {
    key in s.inflight
  }

  /** The completed refresh in the refresh store, if the store is consistent with its history. */
  predicate HasOutcome(s: State, key: ResourceKey) {
    key in s.outcomes && s.outcomes[key] in s.done
  }

  predicate InFlight(s: State, key: ResourceKey, id: nat) {
    key in s.inflight && s.inflight[key].id == id
  }

  predicate RequestCan(s: State, who: nat, step: RequestStep)
    requires At(s, who)
  {
    var a := s.active[who];
    match step
    case LookUp(_) => a.pc.Start?
    case ReadOutcome => a.pc.Reading?
    case Invalidate => a.pc.Invalidating?
    case GetWith => a.pc.Getting?
    case Collect => a.pc.Awaiting? && a.pc.id in s.done
    case Rejoin => a.pc.Awaiting? && a.pc.id !in s.done && !InFlight(s, a.key, a.pc.id)
    case Conclude => a.pc.Ended?
    case Cancel => true
  }

  predicate FetchCan(s: State, key: ResourceKey, step: FetchStep)
    requires InPhase(s, key)
  {
    var phase := s.inflight[key].phase;
    match step
    case CheckCircuit => phase.Checking?
    case Refuse(_) => phase.Cleared?
    case Acquire => phase.Cleared? && s.permits > 0
    case Deny => phase.Admitting?
    case Admit => phase.Admitting?
  }

  predicate FinishCan(s: State, key: ResourceKey, step: FinishStep)
    requires InPhase(s, key)
  {
    var phase := s.inflight[key].phase;
    match step
    case Fail(_) => phase.Fetching?
    case Receive(_, _) => phase.Fetching?
    case Publish => phase.Publishing?
    case SettleCircuit => phase.Settling?
    case Deliver => phase.Delivering?
  }

  predicate Enabled(s: State, a: Action) {
    match a
    case Tick(_) => true
    case Accept(_) => true
    case OfRequest(who, step) => At(s, who) && RequestCan(s, who, step)
    case ToFetch(key, step) => InPhase(s, key) && FetchCan(s, key, step)
    case FromFetch(key, step) => InPhase(s, key) && FinishCan(s, key, step)
    case Lose(_, _) => true
  }

  /** Whether two states agree on everything that refreshes go by. */
  ghost predicate SameRefreshes(s: State, s': State) {
    s'.clock == s.clock && s'.circuits == s.circuits && s'.inflight == s.inflight
  }

  /** Whether two states agree on every request but one. */
  ghost predicate SameOthers(s: State, s': State, who: nat) {
    forall w :: w != who ==> (w in s.active <==> w in s'.active) && (w in s.active ==> s'.active[w] == s.active[w])
  }

  function Move(s: State, who: nat, pc: Pc): (s': State)
    requires At(s, who)
    ensures SameRefreshes(s, s') && SameOthers(s, s', who)
  {
    s.(active := s.active[who := s.active[who].(pc := pc)])
  }

  /** A load ends with a result; representations answered are recorded. */
  function EndLoad(s: State, who: nat, result: LoadResult, wall: int, via: Option<nat>): (s': State)
    requires At(s, who)
    ensures SameRefreshes(s, s') && SameOthers(s, s', who)
  {
    var served := if result.Ok? then s.served + [Served(s.active[who].key, result.value, wall, via)] else s.served;
    Move(s, who, Ended(result)).(served := served)
  }

  /** A load past its lookup. */
  predicate Midway(pc: Pc) {
    !pc.Start? && !pc.Ended?
  }

  /** A load ends with the outcome of a completed refresh, or with what it found when it began. */
  function EndVia(s: State, who: nat, id: nat): (s': State)
    requires At(s, who) && Midway(s.active[who].pc) && id in s.done
    ensures SameRefreshes(s, s') && SameOthers(s, s', who)
  {
    var pc := s.active[who].pc;
    EndLoad(s, who, ResultOrStale(s.done[id].outcome.result, pc.previous, pc.wall), pc.wall, Some(id))
  }

  function Phased(s: State, key: ResourceKey, phase: Phase): (s': State)
    requires InPhase(s, key)
    ensures s'.active == s.active
  {
    s.(inflight := s.inflight[key := s.inflight[key].(phase := phase)])
  }

  /** Leaving the part of a refresh that holds the permit. */
  function Release(s: State, key: ResourceKey, phase: Phase): (s': State)
    requires InPhase(s, key)
    ensures s'.active == s.active
  {
    Phased(s, key, phase).(permits := s.permits + 1)
  }

  /** A refresh ends in an error; a permit it holds goes back. */
  function Stop(s: State, key: ResourceKey, error: FetchError): (s': State)
    requires InPhase(s, key)
    ensures s'.active == s.active
  {
    if HoldsPermit(s.inflight[key].phase) then Release(s, key, Settling(Err(error)))
    else Phased(s, key, Settling(Err(error)))
  }

  function Finish(s: State, who: nat, result: Result<ResolveResponse, FetchError>): (s': State)
    requires At(s, who)
    ensures SameRefreshes(s, s') && SameOthers(s, s', who)
  {
    s.(active := s.active - {who}, handlers := s.handlers + 1,
       answers := s.answers[who := Answer(s.active[who].request, result)])
  }

  /** A cancelled leader takes its refresh, and the permit it may hold, with it. */
  function Abort(s: State, who: nat): (s': State)
    requires At(s, who)
    ensures s'.active == s.active
  {
    var key := s.active[who].key;
    if s.active[who].pc.Awaiting? && InFlight(s, key, s.active[who].pc.id) && s.inflight[key].leader == who then
      s.(inflight := s.inflight - {key},
         permits := if HoldsPermit(s.inflight[key].phase) then s.permits + 1 else s.permits)
    else s
  }

  function DoGetWith(s: State, who: nat): (s': State)
    requires At(s, who) && s.active[who].pc.Getting?
    ensures SameOthers(s, s', who) && At(s', who)
  {
    var a := s.active[who];
    if HasOutcome(s, a.key) then
      EndVia(s, who, s.outcomes[a.key])
    else if InPhase(s, a.key) then
      Move(s, who, Awaiting(s.inflight[a.key].id, a.pc.previous, a.pc.wall))
    else
      Move(s, who, Awaiting(s.nextRefresh, a.pc.previous, a.pc.wall)).(
        inflight := s.inflight[a.key := Refresh(s.nextRefresh, who, a.pc.previous, Checking)],
        keyOf := s.keyOf[s.nextRefresh := a.key],
        nextRefresh := s.nextRefresh + 1)
  }

  function DoConclude(cfg: Config, s: State, who: nat): (s': State)
    requires At(s, who) && s.active[who].pc.Ended?
    ensures SameRefreshes(s, s') && SameOthers(s, s', who)
  {
    var a := s.active[who];
    match a.pc.result
    case Err(error) => Finish(s, who, Err(error))
    case Ok(rep) =>
      match AfterLoad(a.key.kind, rep.resource)
      case Keys(keys) => Finish(s, who, Ok(Respond(cfg.lib, a.target, keys, a.request.keyId)))
      case LoadNext(key) => s.(active := s.active[who := a.(key := key, pc := Start)])
      case Mismatch => Finish(s, who, Err(Plain(InvalidResource)))
  }

  function SettledCircuits(s: State, key: ResourceKey, result: LoadResult): (r: map<ResourceKey, Circuit>)
    ensures forall k :: k in r && k != key ==> k in s.circuits && r[k] == s.circuits[k]
  {
    if UsesCircuit(result) then s.circuits[key := Settle(CircuitOf(s, key), result, s.clock).0] else s.circuits
  }

  function DoSettle(s: State, key: ResourceKey): (s': State)
    requires InPhase(s, key) && s.inflight[key].phase.Settling?
    ensures s'.active == s.active
  {
    var result := s.inflight[key].phase.result;
    Phased(s.(circuits := SettledCircuits(s, key, result)), key, Delivering(SettledOutcome(s, key, result)))
  }

  function SettledOutcome(s: State, key: ResourceKey, result: LoadResult): (r: Outcome)
    ensures r.result == result
  {
    Outcome(result, s.clock + Settle(CircuitOf(s, key), result, s.clock).1)
  }

  function DoCheck(s: State, key: ResourceKey): (s': State)
    requires InPhase(s, key)
    ensures s'.active == s.active
  {
    if IsOpen(CircuitOf(s, key), s.clock) then Stop(s, key, Plain(CircuitOpen)) else Phased(s, key, Cleared)
  }

  function DoAcquire(s: State, key: ResourceKey): (s': State)
    requires InPhase(s, key) && s.permits > 0
    ensures s'.active == s.active
  {
    Phased(s, key, Admitting).(permits := s.permits - 1)
  }

  function DoReceive(cfg: Config, s: State, key: ResourceKey, response: Response, wall: int): (s': State)
    requires InPhase(s, key)
    ensures s'.active == s.active
  {
    var r := s.inflight[key];
    match FromResponse(cfg.lib, key, r.previous, response, wall, r.id)
    case Ok(rep) => Phased(s, key, Publishing(rep))
    case Err(error) => Stop(s, key, error)
  }

  function DoPublish(s: State, key: ResourceKey): (s': State)
    requires InPhase(s, key) && s.inflight[key].phase.Publishing?
    ensures s'.active == s.active
  {
    var rep := s.inflight[key].phase.rep;
    Release(s, key, Settling(Ok(rep))).(
      reps := if rep.policy.storable then s.reps[key := rep] else s.reps - {key})
  }

  function DoDeliver(s: State, key: ResourceKey): (s': State)
    requires InPhase(s, key) && s.inflight[key].phase.Delivering?
    ensures s'.active == s.active
  {
    var r := s.inflight[key];
    s.(inflight := s.inflight - {key},
       outcomes := s.outcomes[key := r.id],
       done := s.done[r.id := Done(key, r.phase.outcome)])
  }

  function DoReadOutcome(s: State, who: nat): (s': State)
    requires At(s, who) && s.active[who].pc.Reading?
    ensures SameRefreshes(s, s') && SameOthers(s, s', who)
  {
    var a := s.active[who];
    if !HasOutcome(s, a.key) then Move(s, who, Getting(a.pc.previous, a.pc.wall))
    else
      var outcome := s.done[s.outcomes[a.key]].outcome;
      if outcome.validUntil > s.clock
      then EndVia(s, who, s.outcomes[a.key])
      else Move(s, who, Invalidating(a.pc.previous, a.pc.wall))
  }

  function DoLookUp(s: State, who: nat, wall: int): (s': State)
    requires At(s, who)
    ensures SameRefreshes(s, s') && SameOthers(s, s', who)
  {
    var previous := RepOf(s, s.active[who].key);
    if previous.Some? && FreshAt(previous.value, wall)
    then EndLoad(s, who, Ok(previous.value), wall, None)
    else Move(s, who, Reading(previous, wall))
  }

  /** The answer a request gets without any load, if it does. */
  function AtOnce(cfg: Config, s: State, request: ResolveRequest): Option<Result<ResolveResponse, FetchError>> {
    if s.handlers == 0 then Some(Err(Plain(Overloaded)))
    else match cfg.validate(request)
      case Err(error) => Some(Err(error))
      case Ok(target) =>
        if request.keyId in cfg.testKeys then Some(Ok(KeyNotFound(target.normalizedIdentifier))) else None
  }

  function DoAccept(cfg: Config, s: State, request: ResolveRequest): (s': State)
    ensures SameRefreshes(s, s')
  {
    match AtOnce(cfg, s, request)
    case Some(result) =>
      s.(nextRequest := s.nextRequest + 1, answers := s.answers[s.nextRequest := Answer(request, result)])
    case None =>
      var target := cfg.validate(request).value;
      s.(handlers := s.handlers - 1, nextRequest := s.nextRequest + 1,
         active := s.active[s.nextRequest := Active(request, target, FirstKey(request, target), Start)])
  }

  function DoRequest(cfg: Config, s: State, who: nat, step: RequestStep): State
    requires At(s, who) && RequestCan(s, who, step)
  {
    var a := s.active[who];
    match step
    case LookUp(wall) => DoLookUp(s, who, wall)
    case ReadOutcome => DoReadOutcome(s, who)
    case Invalidate => Move(s, who, Getting(a.pc.previous, a.pc.wall)).(outcomes := s.outcomes - {a.key})
    case GetWith => DoGetWith(s, who)
    case Collect => EndVia(s, who, a.pc.id)
    case Rejoin => Move(s, who, Getting(a.pc.previous, a.pc.wall))
    case Conclude => DoConclude(cfg, s, who)
    case Cancel => Finish(Abort(s, who), who, Err(Plain(Timeout)))
  }

  function DoFetch(s: State, key: ResourceKey, step: FetchStep): State
    requires InPhase(s, key) && FetchCan(s, key, step)
  {
    match step
    case CheckCircuit => DoCheck(s, key)
    case Refuse(error) => Stop(s, key, error)
    case Acquire => DoAcquire(s, key)
    case Deny => Stop(s, key, Plain(RateLimited))
    case Admit => Phased(s, key, Fetching)
  }

  function DoFinish(cfg: Config, s: State, key: ResourceKey, step: FinishStep): State
    requires InPhase(s, key) && FinishCan(s, key, step)
  {
    match step
    case Fail(error) => Stop(s, key, error)
    case Receive(response, wall) => DoReceive(cfg, s, key, response, wall)
    case Publish => DoPublish(s, key)
    case SettleCircuit => DoSettle(s, key)
    case Deliver => DoDeliver(s, key)
  }

  /** A store loses an entry, by capacity or by age. */
  function DoLose(s: State, key: ResourceKey, store: Store): State {
    match store
    case RepresentationStore => s.(reps := s.reps - {key})
    case RefreshStore => s.(outcomes := s.outcomes - {key})
    case CircuitStore => s.(circuits := s.circuits - {key})
  }

  function Apply(cfg: Config, s: State, a: Action): State
    requires Enabled(s, a)
  {
    match a
    case Tick(elapsed) => s.(clock := s.clock + elapsed)
    case Accept(request) => DoAccept(cfg, s, request)
    case OfRequest(who, step) => DoRequest(cfg, s, who, step)
    case ToFetch(key, step) => DoFetch(s, key, step)
    case FromFetch(key, step) => DoFinish(cfg, s, key, step)
    case Lose(key, store) => DoLose(s, key, store)
  }

  // Runs: a step that is not possible where it is tried changes nothing.

  function Step(cfg: Config, s: State, a: Action): State {
    if Enabled(s, a) then Apply(cfg, s, a) else s
  }

  function After(cfg: Config, actions: seq<Action>): State {
    if actions == [] then Initial(cfg)
    else Step(cfg, After(cfg, actions[..|actions| - 1]), actions[|actions| - 1])
  }
}
