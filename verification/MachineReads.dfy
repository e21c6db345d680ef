/**
 Reads in the state machine: as long as requests for a resource do not overlap, whatever else is
 interleaved, cancelled or lost, its loads answer with the last representation published.
 */
module MachineReads {
  import opened Wrappers
  import opened Fetch
  import opened Resource
  import opened Wire
  import opened Representations
  import opened Circuits
  import opened Loads
  import opened Machine
  import opened MachineSafety

  /** At most one active request is loading the key. */
  predicate Alone(s: State, key: ResourceKey) {
    forall v, w :: v in s.active && w in s.active && s.active[v].key == key && s.active[w].key == key ==> v == w
  }

  ghost predicate NeverOverlap(cfg: Config, actions: seq<Action>, key: ResourceKey) {
    forall n :: 0 <= n <= |actions| ==> Alone(After(cfg, actions[..n]), key)
  }

  /** The last representation of the key that a run published. */
  function Latest(cfg: Config, actions: seq<Action>, key: ResourceKey): Previous {
    if actions == [] then None
    else
      var n := |actions| - 1;
      var s, before := After(cfg, actions[..n]), Latest(cfg, actions[..n], key);
      if Enabled(s, actions[n]) then NextLatest(s, actions[n], key, before) else before
  }

  function NextLatest(s: State, a: Action, key: ResourceKey, latest: Previous): Previous
    requires Enabled(s, a)
  {
    if a.FromFetch? && a.key == key && a.finish.Publish? then Some(s.inflight[key].phase.rep) else latest
  }

  // What is stored, found or answered is the latest.

  ghost predicate Found(previous: Previous, latest: Previous) {
    previous.Some? ==> previous == latest
  }

  ghost predicate Agrees(result: LoadResult, previous: Previous, latest: Previous) {
    match result
    case Ok(rep) => latest == Some(rep)
    case Err(_) => Found(previous, latest)
  }

  ghost predicate RefreshReads(r: Refresh, latest: Previous) {
    match r.phase
    case Settling(result) => Agrees(result, r.previous, latest)
    case Delivering(outcome) => Agrees(outcome.result, r.previous, latest)
    case _ =>
      && Found(r.previous, latest)
      && (latest.Some? ==> latest.value.refresh < r.id)
      && (r.phase.Publishing? ==> r.phase.rep.refresh == r.id)
  }

  ghost predicate PcReads(pc: Pc, inflight: map<ResourceKey, Refresh>, done: map<nat, Done>, key: ResourceKey, latest: Previous) {
    match pc
    case Start => true
    case Ended(_) => true
    case Awaiting(id, previous, _) =>
      if id in done then Agrees(done[id].outcome.result, previous, latest)
      else key in inflight && inflight[key].id == id && inflight[key].previous == previous
    case _ => Found(pc.previous, latest)
  }

  ghost predicate StoresRead(s: State, key: ResourceKey, latest: Previous) {
    && Found(RepOf(s, key), latest)
    && (HasOutcome(s, key) && s.done[s.outcomes[key]].outcome.result.Ok? ==>
          latest == Some(s.done[s.outcomes[key]].outcome.result.value))
    && (InPhase(s, key) ==> key !in s.outcomes && RefreshReads(s.inflight[key], latest))
    && (latest.Some? ==> latest.value.refresh < s.nextRefresh)
  }

  ghost predicate RequestsRead(
    active: map<nat, Active>, inflight: map<ResourceKey, Refresh>, done: map<nat, Done>, key: ResourceKey,
    latest: Previous)
  {
    forall w :: w in active && active[w].key == key ==> PcReads(active[w].pc, inflight, done, key, latest)
  }

  ghost predicate NotNewer(a: Representation, b: Representation) {
    a.refresh <= b.refresh && (a.refresh == b.refresh ==> a == b)
  }

  ghost predicate ServedInOrder(served: seq<Served>, key: ResourceKey, latest: Previous) {
    && (forall i :: 0 <= i < |served| && served[i].key == key ==>
          latest.Some? && NotNewer(served[i].rep, latest.value))
    && (forall i, j :: 0 <= i < j < |served| && served[i].key == key && served[j].key == key ==>
          NotNewer(served[i].rep, served[j].rep))
  }

  ghost predicate Reads(s: State, key: ResourceKey, latest: Previous) {
    && StoresRead(s, key, latest)
    && RequestsRead(s.active, s.inflight, s.done, key, latest)
    && ServedInOrder(s.served, key, latest)
  }

  /** What the machine's invariant and the absence of overlap say about one key. */
  ghost predicate Orderly(s: State, key: ResourceKey) {
    && Alone(s, key)
    && (key in s.outcomes ==> s.outcomes[key] in s.done)
    && s.nextRefresh !in s.done
    && (forall k :: k in s.inflight ==> s.inflight[k].id !in s.done && s.inflight[k].id < s.nextRefresh)
    && (key in s.inflight ==> LeadBy(key, s.inflight[key], s.active))
    && (forall k, w :: k in s.inflight && k != key && w in s.active && s.active[w].key == key && s.active[w].pc.Awaiting? ==>
          s.active[w].pc.id != s.inflight[k].id)
  }

  lemma OrderlyRun(cfg: Config, s: State, key: ResourceKey)
    requires Inv(cfg, s) && Alone(s, key)
    ensures Orderly(s, key)
  {
  }

  // Steps of requests.

  lemma ReplacedReads(s: State, key: ResourceKey, latest: Previous, who: nat, a: Active)
    requires Reads(s, key, latest)
    requires a.key == key ==> PcReads(a.pc, s.inflight, s.done, key, latest)
    ensures Reads(s.(active := s.active[who := a]), key, latest)
  {
    assert RequestsRead(s.active[who := a], s.inflight, s.done, key, latest);
  }

  lemma MoveReads(s: State, key: ResourceKey, latest: Previous, who: nat, pc: Pc)
    requires Reads(s, key, latest) && At(s, who)
    requires s.active[who].key == key ==> PcReads(pc, s.inflight, s.done, key, latest)
    ensures Reads(Move(s, who, pc), key, latest)
  {
    ReplacedReads(s, key, latest, who, s.active[who].(pc := pc));
  }

  lemma ServedMore(served: seq<Served>, key: ResourceKey, latest: Previous, item: Served)
    requires ServedInOrder(served, key, latest) && (item.key == key ==> latest == Some(item.rep))
    ensures ServedInOrder(served + [item], key, latest)
  {
  }

  lemma EndLoadReads(
    s: State, key: ResourceKey, latest: Previous, who: nat, result: LoadResult, wall: int, via: Option<nat>)
    requires Reads(s, key, latest) && At(s, who)
    requires s.active[who].key == key && result.Ok? ==> latest == Some(result.value)
    ensures Reads(EndLoad(s, who, result, wall, via), key, latest)
  {
    MoveReads(s, key, latest, who, Ended(result));
    if result.Ok? {
      ServedMore(s.served, key, latest, Served(s.active[who].key, result.value, wall, via));
    }
  }

  lemma EndViaReads(s: State, key: ResourceKey, latest: Previous, who: nat, id: nat)
    requires Reads(s, key, latest) && At(s, who) && Midway(s.active[who].pc) && id in s.done
    requires s.active[who].key == key ==> Agrees(s.done[id].outcome.result, s.active[who].pc.previous, latest)
    ensures Reads(EndVia(s, who, id), key, latest)
  {
    var pc := s.active[who].pc;
    EndLoadReads(s, key, latest, who, ResultOrStale(s.done[id].outcome.result, pc.previous, pc.wall), pc.wall, Some(id));
  }

  lemma LookUpReads(s: State, key: ResourceKey, latest: Previous, who: nat, wall: int)
    requires Reads(s, key, latest) && At(s, who)
    ensures Reads(DoLookUp(s, who, wall), key, latest)
  {
    var previous := RepOf(s, s.active[who].key);
    if previous.Some? && FreshAt(previous.value, wall) {
      EndLoadReads(s, key, latest, who, Ok(previous.value), wall, None);
    } else {
      MoveReads(s, key, latest, who, Reading(previous, wall));
    }
  }

  lemma ReadOutcomeReads(s: State, key: ResourceKey, latest: Previous, who: nat)
    requires Reads(s, key, latest) && At(s, who) && s.active[who].pc.Reading?
    ensures Reads(DoReadOutcome(s, who), key, latest)
  {
    var a := s.active[who];
    if !HasOutcome(s, a.key) {
      MoveReads(s, key, latest, who, Getting(a.pc.previous, a.pc.wall));
    } else if s.done[s.outcomes[a.key]].outcome.validUntil > s.clock {
      EndViaReads(s, key, latest, who, s.outcomes[a.key]);
    } else {
      MoveReads(s, key, latest, who, Invalidating(a.pc.previous, a.pc.wall));
    }
  }

  lemma LessStored(s: State, key: ResourceKey, latest: Previous, outcomes: map<ResourceKey, nat>)
    requires Reads(s, key, latest)
    requires key in outcomes ==> key in s.outcomes && outcomes[key] == s.outcomes[key]
    ensures Reads(s.(outcomes := outcomes), key, latest)
  {
  }

  lemma InvalidateReads(s: State, key: ResourceKey, latest: Previous, who: nat)
    requires Reads(s, key, latest) && At(s, who) && s.active[who].pc.Invalidating?
    ensures var a := s.active[who];
            Reads(Move(s, who, Getting(a.pc.previous, a.pc.wall)).(outcomes := s.outcomes - {a.key}), key, latest)
  {
    var a := s.active[who];
    MoveReads(s, key, latest, who, Getting(a.pc.previous, a.pc.wall));
    LessStored(Move(s, who, Getting(a.pc.previous, a.pc.wall)), key, latest, s.outcomes - {a.key});
  }

  /** The one request for the key starts a refresh. */
  lemma LeadReads(s: State, key: ResourceKey, latest: Previous, who: nat)
    requires Reads(s, key, latest) && Orderly(s, key) && At(s, who) && s.active[who].pc.Getting?
    requires s.active[who].key == key && !HasOutcome(s, key) && !InPhase(s, key)
    ensures Reads(DoGetWith(s, who), key, latest)
  {
    var a, s' := s.active[who], DoGetWith(s, who);
    assert s'.inflight[key] == Refresh(s.nextRefresh, who, a.pc.previous, Checking);
    assert StoresRead(s', key, latest);
    forall w | w in s'.active && s'.active[w].key == key
      ensures PcReads(s'.active[w].pc, s'.inflight, s'.done, key, latest)
    {
      assert w == who;
    }
  }

  /** Another key's refresh begins, moves on or is aborted. */
  lemma OtherRefreshReads(s: State, s': State, key: ResourceKey, latest: Previous)
    requires Reads(s, key, latest)
    requires s'.reps == s.reps && s'.outcomes == s.outcomes && s'.done == s.done && s'.served == s.served
    requires s'.active == s.active && s'.nextRefresh >= s.nextRefresh
    requires key in s.inflight <==> key in s'.inflight
    requires key in s.inflight ==> s'.inflight[key] == s.inflight[key]
    ensures Reads(s', key, latest)
  {
    forall w | w in s.active && s.active[w].key == key
      ensures PcReads(s.active[w].pc, s'.inflight, s'.done, key, latest)
    {
      assert PcReads(s.active[w].pc, s.inflight, s.done, key, latest);
    }
  }

  lemma OtherLeadReads(s: State, key: ResourceKey, latest: Previous, who: nat)
    requires Reads(s, key, latest) && At(s, who) && s.active[who].pc.Getting?
    requires s.active[who].key != key && !HasOutcome(s, s.active[who].key) && !InPhase(s, s.active[who].key)
    ensures Reads(DoGetWith(s, who), key, latest)
  {
    var a, s' := s.active[who], DoGetWith(s, who);
    var moved := Move(s, who, Awaiting(s.nextRefresh, a.pc.previous, a.pc.wall));
    MoveReads(s, key, latest, who, Awaiting(s.nextRefresh, a.pc.previous, a.pc.wall));
    OtherRefreshReads(moved, s', key, latest);
  }

  lemma GetWithReads(s: State, key: ResourceKey, latest: Previous, who: nat)
    requires Reads(s, key, latest) && Orderly(s, key) && At(s, who) && s.active[who].pc.Getting?
    ensures Reads(DoGetWith(s, who), key, latest)
  {
    var a := s.active[who];
    if HasOutcome(s, a.key) {
      EndViaReads(s, key, latest, who, s.outcomes[a.key]);
    } else if InPhase(s, a.key) {
      MoveReads(s, key, latest, who, Awaiting(s.inflight[a.key].id, a.pc.previous, a.pc.wall));
    } else if a.key == key {
      LeadReads(s, key, latest, who);
    } else {
      OtherLeadReads(s, key, latest, who);
    }
  }

  lemma CollectReads(s: State, key: ResourceKey, latest: Previous, who: nat)
    requires Reads(s, key, latest) && At(s, who) && s.active[who].pc.Awaiting? && s.active[who].pc.id in s.done
    ensures Reads(EndVia(s, who, s.active[who].pc.id), key, latest)
  {
    EndViaReads(s, key, latest, who, s.active[who].pc.id);
  }

  lemma RejoinReads(s: State, key: ResourceKey, latest: Previous, who: nat)
    requires Reads(s, key, latest) && At(s, who) && RequestCan(s, who, Rejoin)
    ensures var pc := s.active[who].pc;
            Reads(Move(s, who, Getting(pc.previous, pc.wall)), key, latest)
  {
    var pc := s.active[who].pc;
    MoveReads(s, key, latest, who, Getting(pc.previous, pc.wall));
  }

  lemma FinishReads(
    s: State, key: ResourceKey, latest: Previous, who: nat, result: Result<ResolveResponse, FetchError>)
    requires Reads(s, key, latest) && At(s, who)
    ensures Reads(Finish(s, who, result), key, latest)
  {
    assert RequestsRead(s.active - {who}, s.inflight, s.done, key, latest);
  }

  lemma ConcludeReads(cfg: Config, s: State, key: ResourceKey, latest: Previous, who: nat)
    requires Reads(s, key, latest) && At(s, who) && s.active[who].pc.Ended?
    ensures Reads(DoConclude(cfg, s, who), key, latest)
  {
    var a := s.active[who];
    match a.pc.result
    case Err(error) => FinishReads(s, key, latest, who, Err(error));
    case Ok(rep) =>
      match AfterLoad(a.key.kind, rep.resource)
      case Keys(keys) => FinishReads(s, key, latest, who, Ok(Respond(cfg.lib, a.target, keys, a.request.keyId)));
      case LoadNext(next) => ReplacedReads(s, key, latest, who, a.(key := next, pc := Start));
      case Mismatch => FinishReads(s, key, latest, who, Err(Plain(InvalidResource)));
  }

  /** The one request for the key is cancelled, and its refresh with it. */
  lemma CancelledReads(
    s: State, key: ResourceKey, latest: Previous, who: nat, inflight: map<ResourceKey, Refresh>, permits: nat)
    requires Reads(s, key, latest) && Orderly(s, key) && At(s, who)
    requires key in inflight ==> key in s.inflight && inflight[key] == s.inflight[key]
    requires key in s.inflight && key !in inflight ==> s.active[who].key == key
    ensures Reads(Finish(s.(inflight := inflight, permits := permits), who, Err(Plain(Timeout))), key, latest)
  {
    var s' := Finish(s.(inflight := inflight, permits := permits), who, Err(Plain(Timeout)));
    assert StoresRead(s', key, latest);
    forall w | w in s'.active && s'.active[w].key == key ensures PcReads(s'.active[w].pc, inflight, s.done, key, latest) {
      assert PcReads(s.active[w].pc, s.inflight, s.done, key, latest);
    }
  }

  lemma CancelReads(s: State, key: ResourceKey, latest: Previous, who: nat)
    requires Reads(s, key, latest) && Orderly(s, key) && At(s, who)
    ensures Reads(Finish(Abort(s, who), who, Err(Plain(Timeout))), key, latest)
  {
    var s' := Abort(s, who);
    CancelledReads(s, key, latest, who, s'.inflight, s'.permits);
    assert s' == s.(inflight := s'.inflight, permits := s'.permits);
  }

  lemma RequestReads(cfg: Config, s: State, who: nat, step: RequestStep, key: ResourceKey, latest: Previous)
    requires Reads(s, key, latest) && Orderly(s, key) && At(s, who) && RequestCan(s, who, step)
    ensures Reads(DoRequest(cfg, s, who, step), key, latest)
  {
    match step
    case LookUp(wall) => LookUpReads(s, key, latest, who, wall);
    case ReadOutcome => ReadOutcomeReads(s, key, latest, who);
    case Invalidate => InvalidateReads(s, key, latest, who);
    case GetWith => GetWithReads(s, key, latest, who);
    case Collect => CollectReads(s, key, latest, who);
    case Rejoin => RejoinReads(s, key, latest, who);
    case Conclude => ConcludeReads(cfg, s, key, latest, who);
    case Cancel => CancelReads(s, key, latest, who);
  }

  lemma AcceptReads(cfg: Config, s: State, request: ResolveRequest, key: ResourceKey, latest: Previous)
    requires Reads(s, key, latest)
    ensures Reads(DoAccept(cfg, s, request), key, latest)
  {
    if AtOnce(cfg, s, request).None? {
      var target := cfg.validate(request).value;
      ReplacedReads(s, key, latest, s.nextRequest, Active(request, target, FirstKey(request, target), Start));
    }
  }

  // Steps of refreshes.

  /** A refresh of any key moves on to a phase that goes with the latest. */
  lemma PhasedReads(s: State, k: ResourceKey, phase: Phase, permits: nat, key: ResourceKey, latest: Previous)
    requires Reads(s, key, latest) && InPhase(s, k)
    requires k == key ==> RefreshReads(s.inflight[key].(phase := phase), latest)
    ensures Reads(Phased(s, k, phase).(permits := permits), key, latest)
  {
    var s' := Phased(s, k, phase).(permits := permits);
    assert StoresRead(s', key, latest);
    forall w | w in s.active && s.active[w].key == key ensures PcReads(s.active[w].pc, s'.inflight, s.done, key, latest) {
      assert PcReads(s.active[w].pc, s.inflight, s.done, key, latest);
    }
  }

  lemma MovedOnReads(s: State, k: ResourceKey, phase: Phase, key: ResourceKey, latest: Previous)
    requires Reads(s, key, latest) && InPhase(s, k)
    requires k == key ==> RefreshReads(s.inflight[key].(phase := phase), latest)
    ensures Reads(Phased(s, k, phase), key, latest)
  {
    PhasedReads(s, k, phase, s.permits, key, latest);
    assert Phased(s, k, phase).(permits := s.permits) == Phased(s, k, phase);
  }

  /** A phase before the result of a refresh is known. */
  predicate Early(phase: Phase) {
    !phase.Settling? && !phase.Delivering?
  }

  lemma StopReads(s: State, k: ResourceKey, error: FetchError, key: ResourceKey, latest: Previous)
    requires Reads(s, key, latest) && InPhase(s, k) && Early(s.inflight[k].phase)
    ensures Reads(Stop(s, k, error), key, latest)
  {
    PhasedReads(s, k, Settling(Err(error)), s.permits + 1, key, latest);
    MovedOnReads(s, k, Settling(Err(error)), key, latest);
  }

  lemma FetchReads(s: State, k: ResourceKey, step: FetchStep, key: ResourceKey, latest: Previous)
    requires Reads(s, key, latest) && InPhase(s, k) && FetchCan(s, k, step)
    ensures Reads(DoFetch(s, k, step), key, latest)
  {
    match step
    case CheckCircuit =>
      StopReads(s, k, Plain(CircuitOpen), key, latest);
      MovedOnReads(s, k, Cleared, key, latest);
    case Refuse(error) => StopReads(s, k, error, key, latest);
    case Acquire => PhasedReads(s, k, Admitting, s.permits - 1, key, latest);
    case Deny => StopReads(s, k, Plain(RateLimited), key, latest);
    case Admit => MovedOnReads(s, k, Fetching, key, latest);
  }

  lemma ReceiveReads(cfg: Config, s: State, k: ResourceKey, response: Response, wall: int, key: ResourceKey, latest: Previous)
    requires Reads(s, key, latest) && InPhase(s, k) && s.inflight[k].phase.Fetching?
    ensures Reads(DoReceive(cfg, s, k, response, wall), key, latest)
  {
    var r := s.inflight[k];
    match FromResponse(cfg.lib, k, r.previous, response, wall, r.id)
    case Ok(rep) => MovedOnReads(s, k, Publishing(rep), key, latest);
    case Err(error) => StopReads(s, k, error, key, latest);
  }

  lemma ServedOlder(served: seq<Served>, key: ResourceKey, latest: Previous, rep: Representation)
    requires ServedInOrder(served, key, latest) && (latest.Some? ==> latest.value.refresh < rep.refresh)
    ensures ServedInOrder(served, key, Some(rep))
  {
  }

  /** The refresh of the key publishes; nobody else has found anything. */
  lemma PublishReads(s: State, key: ResourceKey, latest: Previous)
    requires Reads(s, key, latest) && Orderly(s, key) && InPhase(s, key) && s.inflight[key].phase.Publishing?
    ensures Reads(DoPublish(s, key), key, Some(s.inflight[key].phase.rep))
  {
    var r, s' := s.inflight[key], DoPublish(s, key);
    var rep := r.phase.rep;
    ServedOlder(s.served, key, latest, rep);
    assert s'.inflight[key] == r.(phase := Settling(Ok(rep)));
    assert StoresRead(s', key, Some(rep));
    forall w | w in s.active && s.active[w].key == key ensures PcReads(s.active[w].pc, s'.inflight, s.done, key, Some(rep)) {
      assert w == r.leader && PcReads(s.active[w].pc, s.inflight, s.done, key, latest);
    }
  }

  lemma OtherPublishReads(s: State, k: ResourceKey, key: ResourceKey, latest: Previous)
    requires Reads(s, key, latest) && InPhase(s, k) && s.inflight[k].phase.Publishing? && k != key
    ensures Reads(DoPublish(s, k), key, latest)
  {
    var rep := s.inflight[k].phase.rep;
    PhasedReads(s, k, Settling(Ok(rep)), s.permits + 1, key, latest);
  }

  lemma SettleReads(s: State, k: ResourceKey, key: ResourceKey, latest: Previous)
    requires Reads(s, key, latest) && InPhase(s, k) && s.inflight[k].phase.Settling?
    ensures Reads(DoSettle(s, k), key, latest)
  {
    var result := s.inflight[k].phase.result;
    var outcome := SettledOutcome(s, k, result);
    MovedOnReads(s, k, Delivering(outcome), key, latest);
    CircuitsDoNotRead(Phased(s, k, Delivering(outcome)), key, latest, SettledCircuits(s, k, result));
  }

  lemma CircuitsDoNotRead(s: State, key: ResourceKey, latest: Previous, circuits: map<ResourceKey, Circuit>)
    requires Reads(s, key, latest)
    ensures Reads(s.(circuits := circuits), key, latest)
  {
  }

  lemma DeliverReads(s: State, key: ResourceKey, latest: Previous)
    requires Reads(s, key, latest) && Orderly(s, key) && InPhase(s, key) && s.inflight[key].phase.Delivering?
    ensures Reads(DoDeliver(s, key), key, latest)
  {
    var r, s' := s.inflight[key], DoDeliver(s, key);
    assert StoresRead(s', key, latest);
    forall w | w in s.active && s.active[w].key == key ensures PcReads(s.active[w].pc, s'.inflight, s'.done, key, latest) {
      assert w == r.leader && PcReads(s.active[w].pc, s.inflight, s.done, key, latest);
    }
  }

  lemma OtherDeliverReads(s: State, k: ResourceKey, key: ResourceKey, latest: Previous)
    requires Reads(s, key, latest) && Orderly(s, key) && InPhase(s, k) && s.inflight[k].phase.Delivering? && k != key
    ensures Reads(DoDeliver(s, k), key, latest)
  {
    var r, s' := s.inflight[k], DoDeliver(s, k);
    assert StoresRead(s', key, latest);
    forall w | w in s.active && s.active[w].key == key ensures PcReads(s.active[w].pc, s'.inflight, s'.done, key, latest) {
      assert PcReads(s.active[w].pc, s.inflight, s.done, key, latest);
    }
  }

  lemma FinishStepReads(cfg: Config, s: State, k: ResourceKey, step: FinishStep, key: ResourceKey, latest: Previous)
    requires Reads(s, key, latest) && Orderly(s, key) && InPhase(s, k) && FinishCan(s, k, step)
    ensures Reads(DoFinish(cfg, s, k, step), key, NextLatest(s, FromFetch(k, step), key, latest))
  {
    match step
    case Fail(error) => StopReads(s, k, error, key, latest);
    case Receive(response, wall) => ReceiveReads(cfg, s, k, response, wall, key, latest);
    case Publish =>
      if k == key { PublishReads(s, key, latest); } else { OtherPublishReads(s, k, key, latest); }
    case SettleCircuit => SettleReads(s, k, key, latest);
    case Deliver =>
      if k == key { DeliverReads(s, key, latest); } else { OtherDeliverReads(s, k, key, latest); }
  }

  lemma LoseReads(s: State, k: ResourceKey, store: Store, key: ResourceKey, latest: Previous)
    requires Reads(s, key, latest)
    ensures Reads(DoLose(s, k, store), key, latest)
  {
    match store
    case RepresentationStore =>
    case RefreshStore => LessStored(s, key, latest, s.outcomes - {k});
    case CircuitStore => CircuitsDoNotRead(s, key, latest, s.circuits - {k});
  }

  lemma TickReads(s: State, elapsed: nat, key: ResourceKey, latest: Previous)
    requires Reads(s, key, latest)
    ensures Reads(s.(clock := s.clock + elapsed), key, latest)
  {
  }

  // Every step, every run.

  lemma StepReads(cfg: Config, s: State, a: Action, key: ResourceKey, latest: Previous)
    requires Reads(s, key, latest) && Orderly(s, key) && Enabled(s, a)
    ensures Reads(Apply(cfg, s, a), key, NextLatest(s, a, key, latest))
  {
    match a
    case Tick(elapsed) => TickReads(s, elapsed, key, latest);
    case Accept(request) => AcceptReads(cfg, s, request, key, latest);
    case OfRequest(who, step) => RequestReads(cfg, s, who, step, key, latest);
    case ToFetch(k, step) => FetchReads(s, k, step, key, latest);
    case FromFetch(k, step) => FinishStepReads(cfg, s, k, step, key, latest);
    case Lose(k, store) => LoseReads(s, k, store, key, latest);
  }

  lemma NeverOverlapPrefix(cfg: Config, actions: seq<Action>, key: ResourceKey, n: nat)
    requires NeverOverlap(cfg, actions, key) && n <= |actions|
    ensures NeverOverlap(cfg, actions[..n], key) && Alone(After(cfg, actions[..n]), key)
  {
    forall m | 0 <= m <= n ensures Alone(After(cfg, actions[..n][..m]), key) {
      assert actions[..n][..m] == actions[..m];
    }
  }

  lemma {:induction false} AlwaysReads(cfg: Config, actions: seq<Action>, key: ResourceKey)
    requires DirectoryRouting(cfg) && NeverOverlap(cfg, actions, key)
    ensures Reads(After(cfg, actions), key, Latest(cfg, actions, key))
  {
    if actions != [] {
      var n := |actions| - 1;
      NeverOverlapPrefix(cfg, actions, key, n);
      AlwaysReads(cfg, actions[..n], key);
      AlwaysInv(cfg, actions[..n]);
      var s := After(cfg, actions[..n]);
      OrderlyRun(cfg, s, key);
      if Enabled(s, actions[n]) {
        StepReads(cfg, s, actions[n], key, Latest(cfg, actions[..n], key));
      }
    }
  }

  /**
   In every run in which requests for a key do not overlap, whatever is interleaved on other keys,
   cancelled anywhere or lost, the loads of the key read monotonically: never an older refresh after
   a newer one, never two representations of one refresh, and never newer than the last published.
   */
  lemma LoadsReadMonotonically(cfg: Config, actions: seq<Action>, key: ResourceKey, i: nat, j: nat)
    requires Honest(cfg) && NeverOverlap(cfg, actions, key) && i <= j < |After(cfg, actions).served|
    requires After(cfg, actions).served[i].key == key && After(cfg, actions).served[j].key == key
    ensures var served := After(cfg, actions).served;
            && NotNewer(served[i].rep, served[j].rep)
            && Latest(cfg, actions, key).Some? && NotNewer(served[j].rep, Latest(cfg, actions, key).value)
  {
    HonestRouting(cfg);
    AlwaysReads(cfg, actions, key);
  }
}
