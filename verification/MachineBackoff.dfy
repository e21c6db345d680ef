/**
 Backoff in the state machine: as long as requests for a resource do not overlap, the outcome of a
 failure keeps fetches away for its whole backoff, unless the outcome is lost or its load is cut
 off between counting the failure and storing the outcome.
 */
module MachineBackoff {
  import opened Wrappers
  import opened Fetch
  import opened Resource
  import opened Wire
  import opened Representations
  import opened Circuits
  import opened Loads
  import opened Machine
  import opened MachineSafety
  import opened MachinePacing
  import opened MachineReads

  predicate IsTransient(result: LoadResult) {
    result.Err? && Class(result.error) == Transient
  }

  /** When the backoff of the last failure of a streak, hint included, is over. */
  function BackoffEnd(streak: seq<Strike>): nat
    requires streak != []
  {
    var last := streak[|streak| - 1];
    last.at + Backoff(|streak|, last.retryAfter)
  }

  /** A request that will not refresh before it has read the outcome that is stored. */
  predicate Waits(pc: Pc, done: map<nat, Done>) {
    pc.Start? || pc.Reading? || pc.Ended? || (pc.Awaiting? && pc.id in done)
  }

  ghost predicate AllWait(active: map<nat, Active>, done: map<nat, Done>, key: ResourceKey) {
    forall w :: w in active && active[w].key == key ==> Waits(active[w].pc, done)
  }

  /** The stored outcome lasts until the end, and everybody will read it first. */
  ghost predicate Stored(s: State, key: ResourceKey, end: nat) {
    && HasOutcome(s, key) && s.done[s.outcomes[key]].outcome.validUntil >= end
    && AllWait(s.active, s.done, key)
  }

  /** The failure is counted and its outcome, which lasts until the end, is about to be stored. */
  predicate Arriving(s: State, key: ResourceKey, end: nat) {
    && InPhase(s, key) && s.inflight[key].phase.Delivering?
    && IsTransient(s.inflight[key].phase.outcome.result) && s.inflight[key].phase.outcome.validUntil >= end
  }

  ghost predicate Kept(s: State, key: ResourceKey, end: nat) {
    s.clock >= end || Stored(s, key, end) || Arriving(s, key, end)
  }

  /** Cancelling a request that leads the refresh of a failure just counted, or losing an outcome. */
  predicate Forgets(s: State, a: Action, key: ResourceKey) {
    || a == Lose(key, RefreshStore)
    || (&& a.OfRequest? && a.step.Cancel? && InPhase(s, key) && s.inflight[key].leader == a.who
        && s.inflight[key].phase.Delivering? && IsTransient(s.inflight[key].phase.outcome.result))
  }

  ghost predicate NeverForgets(cfg: Config, actions: seq<Action>, key: ResourceKey) {
    forall n :: 0 <= n < |actions| ==> !Forgets(After(cfg, actions[..n]), actions[n], key)
  }

  /** No outcome is stored while a refresh is in flight. */
  predicate Exclusive(s: State, key: ResourceKey) {
    key in s.inflight ==> key !in s.outcomes
  }

  // Steps that count no failure.

  /** A request moves; if the stored outcome holds the backoff, it waits for it or finds it expired. */
  lemma MovedKeeps(s: State, who: nat, a: Active, key: ResourceKey, end: nat)
    requires Kept(s, key, end)
    requires a.key == key && Stored(s, key, end) && s.clock < end ==> Waits(a.pc, s.done)
    ensures Kept(s.(active := s.active[who := a]), key, end)
  {
  }

  lemma MoveKeeps(s: State, who: nat, pc: Pc, key: ResourceKey, end: nat)
    requires Kept(s, key, end) && At(s, who)
    requires s.active[who].key == key && Stored(s, key, end) && s.clock < end ==> Waits(pc, s.done)
    ensures Kept(Move(s, who, pc), key, end)
  {
    MovedKeeps(s, who, s.active[who].(pc := pc), key, end);
  }

  lemma EndLoadKeeps(s: State, who: nat, result: LoadResult, wall: int, via: Option<nat>, key: ResourceKey, end: nat)
    requires Kept(s, key, end) && At(s, who)
    ensures Kept(EndLoad(s, who, result, wall, via), key, end)
  {
    MoveKeeps(s, who, Ended(result), key, end);
  }

  lemma EndViaKeeps(s: State, who: nat, id: nat, key: ResourceKey, end: nat)
    requires Kept(s, key, end) && At(s, who) && Midway(s.active[who].pc) && id in s.done
    ensures Kept(EndVia(s, who, id), key, end)
  {
    var pc := s.active[who].pc;
    EndLoadKeeps(s, who, ResultOrStale(s.done[id].outcome.result, pc.previous, pc.wall), pc.wall, Some(id), key, end);
  }

  lemma LookUpKeeps(s: State, who: nat, wall: int, key: ResourceKey, end: nat)
    requires Kept(s, key, end) && At(s, who)
    ensures Kept(DoLookUp(s, who, wall), key, end)
  {
    var previous := RepOf(s, s.active[who].key);
    if previous.Some? && FreshAt(previous.value, wall) {
      EndLoadKeeps(s, who, Ok(previous.value), wall, None, key, end);
    } else {
      MoveKeeps(s, who, Reading(previous, wall), key, end);
    }
  }

  lemma ReadOutcomeKeeps(s: State, who: nat, key: ResourceKey, end: nat)
    requires Kept(s, key, end) && At(s, who) && s.active[who].pc.Reading?
    ensures Kept(DoReadOutcome(s, who), key, end)
  {
    var a := s.active[who];
    if !HasOutcome(s, a.key) {
      MoveKeeps(s, who, Getting(a.pc.previous, a.pc.wall), key, end);
    } else if s.done[s.outcomes[a.key]].outcome.validUntil > s.clock {
      EndViaKeeps(s, who, s.outcomes[a.key], key, end);
    } else {
      MoveKeeps(s, who, Invalidating(a.pc.previous, a.pc.wall), key, end);
    }
  }

  lemma InvalidateKeeps(s: State, who: nat, key: ResourceKey, end: nat)
    requires Kept(s, key, end) && At(s, who) && s.active[who].pc.Invalidating?
    ensures var a := s.active[who];
            Kept(Move(s, who, Getting(a.pc.previous, a.pc.wall)).(outcomes := s.outcomes - {a.key}), key, end)
  {
  }

  lemma GetWithKeeps(s: State, who: nat, key: ResourceKey, end: nat)
    requires Kept(s, key, end) && At(s, who) && s.active[who].pc.Getting?
    ensures Kept(DoGetWith(s, who), key, end)
  {
    var a := s.active[who];
    if HasOutcome(s, a.key) {
      EndViaKeeps(s, who, s.outcomes[a.key], key, end);
    } else if InPhase(s, a.key) {
      MoveKeeps(s, who, Awaiting(s.inflight[a.key].id, a.pc.previous, a.pc.wall), key, end);
    } else {
      MoveKeeps(s, who, Awaiting(s.nextRefresh, a.pc.previous, a.pc.wall), key, end);
    }
  }

  lemma FinishKeeps(s: State, who: nat, result: Result<ResolveResponse, FetchError>, key: ResourceKey, end: nat)
    requires Kept(s, key, end) && At(s, who)
    ensures Kept(Finish(s, who, result), key, end)
  {
    if Stored(s, key, end) {
      assert AllWait(s.active - {who}, s.done, key);
    }
  }

  lemma ConcludeKeeps(cfg: Config, s: State, who: nat, key: ResourceKey, end: nat)
    requires Kept(s, key, end) && At(s, who) && s.active[who].pc.Ended?
    ensures Kept(DoConclude(cfg, s, who), key, end)
  {
    var a := s.active[who];
    match a.pc.result
    case Err(error) => FinishKeeps(s, who, Err(error), key, end);
    case Ok(rep) =>
      match AfterLoad(a.key.kind, rep.resource)
      case Keys(keys) => FinishKeeps(s, who, Ok(Respond(cfg.lib, a.target, keys, a.request.keyId)), key, end);
      case LoadNext(next) => MovedKeeps(s, who, a.(key := next, pc := Start), key, end);
      case Mismatch => FinishKeeps(s, who, Err(Plain(InvalidResource)), key, end);
  }

  lemma CancelKeeps(s: State, who: nat, key: ResourceKey, end: nat)
    requires Kept(s, key, end) && At(s, who) && !Forgets(s, OfRequest(who, Cancel), key)
    ensures Kept(Finish(Abort(s, who), who, Err(Plain(Timeout))), key, end)
  {
    var s' := Abort(s, who);
    assert Kept(s', key, end);
    FinishKeeps(s', who, Err(Plain(Timeout)), key, end);
  }

  lemma RequestKeeps(cfg: Config, s: State, who: nat, step: RequestStep, key: ResourceKey, end: nat)
    requires Kept(s, key, end) && At(s, who) && RequestCan(s, who, step) && !Forgets(s, OfRequest(who, step), key)
    ensures Kept(DoRequest(cfg, s, who, step), key, end)
  {
    match step
    case LookUp(wall) => LookUpKeeps(s, who, wall, key, end);
    case ReadOutcome => ReadOutcomeKeeps(s, who, key, end);
    case Invalidate => InvalidateKeeps(s, who, key, end);
    case GetWith => GetWithKeeps(s, who, key, end);
    case Collect => EndViaKeeps(s, who, s.active[who].pc.id, key, end);
    case Rejoin => MoveKeeps(s, who, Getting(s.active[who].pc.previous, s.active[who].pc.wall), key, end);
    case Conclude => ConcludeKeeps(cfg, s, who, key, end);
    case Cancel => CancelKeeps(s, who, key, end);
  }

  lemma AcceptKeeps(cfg: Config, s: State, request: ResolveRequest, key: ResourceKey, end: nat)
    requires Kept(s, key, end)
    ensures Kept(DoAccept(cfg, s, request), key, end)
  {
    if AtOnce(cfg, s, request).None? {
      var target := cfg.validate(request).value;
      MovedKeeps(s, s.nextRequest, Active(request, target, FirstKey(request, target), Start), key, end);
    }
  }

  /** A refresh moves on to a phase; one of the key does so only when no outcome is arriving. */
  lemma PhasedKeeps(s: State, k: ResourceKey, phase: Phase, permits: nat, key: ResourceKey, end: nat)
    requires Kept(s, key, end) && InPhase(s, k) && (k == key ==> !s.inflight[k].phase.Delivering?)
    ensures Kept(Phased(s, k, phase).(permits := permits), key, end)
  {
  }

  lemma MovedOnKeeps(s: State, k: ResourceKey, phase: Phase, key: ResourceKey, end: nat)
    requires Kept(s, key, end) && InPhase(s, k) && (k == key ==> !s.inflight[k].phase.Delivering?)
    ensures Kept(Phased(s, k, phase), key, end)
  {
    PhasedKeeps(s, k, phase, s.permits, key, end);
    assert Phased(s, k, phase).(permits := s.permits) == Phased(s, k, phase);
  }

  lemma StopKeeps(s: State, k: ResourceKey, error: FetchError, key: ResourceKey, end: nat)
    requires Kept(s, key, end) && InPhase(s, k) && !s.inflight[k].phase.Delivering?
    ensures Kept(Stop(s, k, error), key, end)
  {
    PhasedKeeps(s, k, Settling(Err(error)), s.permits + 1, key, end);
    MovedOnKeeps(s, k, Settling(Err(error)), key, end);
  }

  lemma FetchKeeps(s: State, k: ResourceKey, step: FetchStep, key: ResourceKey, end: nat)
    requires Kept(s, key, end) && InPhase(s, k) && FetchCan(s, k, step)
    ensures Kept(DoFetch(s, k, step), key, end)
  {
    match step
    case CheckCircuit =>
      StopKeeps(s, k, Plain(CircuitOpen), key, end);
      MovedOnKeeps(s, k, Cleared, key, end);
    case Refuse(error) => StopKeeps(s, k, error, key, end);
    case Acquire => PhasedKeeps(s, k, Admitting, s.permits - 1, key, end);
    case Deny => StopKeeps(s, k, Plain(RateLimited), key, end);
    case Admit => MovedOnKeeps(s, k, Fetching, key, end);
  }

  lemma ReceiveKeeps(cfg: Config, s: State, k: ResourceKey, response: Response, wall: int, key: ResourceKey, end: nat)
    requires Kept(s, key, end) && InPhase(s, k) && s.inflight[k].phase.Fetching?
    ensures Kept(DoReceive(cfg, s, k, response, wall), key, end)
  {
    var r := s.inflight[k];
    match FromResponse(cfg.lib, k, r.previous, response, wall, r.id)
    case Ok(rep) => MovedOnKeeps(s, k, Publishing(rep), key, end);
    case Err(error) => StopKeeps(s, k, error, key, end);
  }

  lemma PublishKeeps(s: State, k: ResourceKey, key: ResourceKey, end: nat)
    requires Kept(s, key, end) && InPhase(s, k) && s.inflight[k].phase.Publishing?
    ensures Kept(DoPublish(s, k), key, end)
  {
    PhasedKeeps(s, k, Settling(Ok(s.inflight[k].phase.rep)), s.permits + 1, key, end);
  }

  lemma SettleKeeps(s: State, k: ResourceKey, key: ResourceKey, end: nat)
    requires Kept(s, key, end) && InPhase(s, k) && s.inflight[k].phase.Settling?
    ensures Kept(DoSettle(s, k), key, end)
  {
    MovedOnKeeps(s, k, Delivering(SettledOutcome(s, k, s.inflight[k].phase.result)), key, end);
  }

  /** Storing an outcome: the one request for the key that waits for it has it. */
  lemma DeliverKeeps(s: State, k: ResourceKey, key: ResourceKey, end: nat)
    requires Kept(s, key, end) && Orderly(s, key) && Exclusive(s, key)
    requires InPhase(s, k) && s.inflight[k].phase.Delivering?
    ensures Kept(DoDeliver(s, k), key, end)
  {
    var r, s' := s.inflight[k], DoDeliver(s, k);
    if s.clock < end {
      if k == key {
        assert HasOutcome(s', key) && s'.done[s'.outcomes[key]] == Done(key, r.phase.outcome);
        forall w | w in s.active && s.active[w].key == key ensures Waits(s.active[w].pc, s'.done) {
          assert w == r.leader;
        }
      } else if Stored(s, key, end) {
        assert AllWait(s.active, s'.done, key);
      }
    }
  }

  lemma FinishStepKeeps(cfg: Config, s: State, k: ResourceKey, step: FinishStep, key: ResourceKey, end: nat)
    requires Kept(s, key, end) && Orderly(s, key) && Exclusive(s, key) && InPhase(s, k) && FinishCan(s, k, step)
    ensures Kept(DoFinish(cfg, s, k, step), key, end)
  {
    match step
    case Fail(error) => StopKeeps(s, k, error, key, end);
    case Receive(response, wall) => ReceiveKeeps(cfg, s, k, response, wall, key, end);
    case Publish => PublishKeeps(s, k, key, end);
    case SettleCircuit => SettleKeeps(s, k, key, end);
    case Deliver => DeliverKeeps(s, k, key, end);
  }

  lemma LoseKeeps(s: State, k: ResourceKey, store: Store, key: ResourceKey, end: nat)
    requires Kept(s, key, end) && !Forgets(s, Lose(k, store), key)
    ensures Kept(DoLose(s, k, store), key, end)
  {
  }

  lemma StepKeeps(cfg: Config, s: State, a: Action, key: ResourceKey, end: nat)
    requires Kept(s, key, end) && Orderly(s, key) && Exclusive(s, key) && Enabled(s, a) && !Forgets(s, a, key)
    ensures Kept(Apply(cfg, s, a), key, end)
  {
    match a
    case Tick(_) =>
    case Accept(request) => AcceptKeeps(cfg, s, request, key, end);
    case OfRequest(who, step) => RequestKeeps(cfg, s, who, step, key, end);
    case ToFetch(k, step) => FetchKeeps(s, k, step, key, end);
    case FromFetch(k, step) => FinishStepKeeps(cfg, s, k, step, key, end);
    case Lose(k, store) => LoseKeeps(s, k, store, key, end);
  }

  // A failure is counted.

  ghost predicate BackoffKept(s: State, key: ResourceKey, streak: seq<Strike>) {
    Spaced(streak) && (streak != [] ==> Kept(s, key, BackoffEnd(streak)))
  }

  /** While a refresh is not delivering, and no outcome is stored, the backoff is over. */
  lemma RefreshAfterBackoff(s: State, key: ResourceKey, end: nat)
    requires Kept(s, key, end) && Exclusive(s, key) && InPhase(s, key) && !s.inflight[key].phase.Delivering?
    ensures s.clock >= end
  {
  }

  lemma StrikeSpaced(s: State, key: ResourceKey, streak: seq<Strike>, strike: Strike)
    requires BackoffKept(s, key, streak) && CircuitTells(s, key, streak) && Exclusive(s, key)
    requires Striking(s, key) && strike.at == s.clock
    ensures Spaced(streak + [strike])
  {
    if streak != [] {
      RefreshAfterBackoff(s, key, BackoffEnd(streak));
      ClosedAfterGap(s, key, streak);
    }
    SpacedAppend(streak, strike);
  }

  lemma StrikeArrives(s: State, key: ResourceKey, streak: seq<Strike>, error: FetchError)
    requires CircuitTells(s, key, streak) && InPhase(s, key) && s.inflight[key].phase == Settling(Err(error))
    requires Class(error) == Transient
    ensures Arriving(DoSettle(s, key), key, s.clock + Backoff(|streak| + 1, error.retryAfter))
  {
    var more := streak + [Strike(s.clock, error.retryAfter)];
    AfterStreakAppend(streak, Strike(s.clock, error.retryAfter));
    StreakState(more);
    BackoffSaturated(|more|, error.retryAfter);
  }

  lemma SettleBackoff(s: State, key: ResourceKey, streak: seq<Strike>)
    requires BackoffKept(s, key, streak) && CircuitTells(s, key, streak) && Exclusive(s, key)
    requires InPhase(s, key) && s.inflight[key].phase.Settling?
    ensures BackoffKept(DoSettle(s, key), key, SettledStreak(s, streak, s.inflight[key].phase.result))
  {
    var result := s.inflight[key].phase.result;
    if IsTransient(result) {
      StrikeSpaced(s, key, streak, Strike(s.clock, result.error.retryAfter));
      StrikeArrives(s, key, streak, result.error);
    } else if result.Err? && streak != [] {
      SettleKeeps(s, key, key, BackoffEnd(streak));
    }
  }

  lemma StepBackoff(cfg: Config, s: State, a: Action, key: ResourceKey, streak: seq<Strike>)
    requires BackoffKept(s, key, streak) && CircuitTells(s, key, streak) && Exclusive(s, key) && Orderly(s, key)
    requires Enabled(s, a) && !Forgets(s, a, key)
    ensures BackoffKept(Apply(cfg, s, a), key, NextStrikes(s, a, key, streak))
  {
    if a == FromFetch(key, SettleCircuit) {
      SettleBackoff(s, key, streak);
    } else if a != Lose(key, CircuitStore) && streak != [] {
      StepKeeps(cfg, s, a, key, BackoffEnd(streak));
    }
  }

  lemma NeverForgetsPrefix(cfg: Config, actions: seq<Action>, key: ResourceKey, n: nat)
    requires NeverForgets(cfg, actions, key) && n <= |actions|
    ensures NeverForgets(cfg, actions[..n], key)
  {
    forall m | 0 <= m < n ensures !Forgets(After(cfg, actions[..n][..m]), actions[..n][m], key) {
      assert actions[..n][..m] == actions[..m] && actions[..n][m] == actions[m];
    }
  }

  lemma {:induction false} AlwaysKept(cfg: Config, actions: seq<Action>, key: ResourceKey)
    requires DirectoryRouting(cfg) && NeverOverlap(cfg, actions, key) && NeverForgets(cfg, actions, key)
    ensures BackoffKept(After(cfg, actions), key, Strikes(cfg, actions, key))
  {
    if actions != [] {
      var n := |actions| - 1;
      NeverOverlapPrefix(cfg, actions, key, n);
      NeverForgetsPrefix(cfg, actions, key, n);
      AlwaysKept(cfg, actions[..n], key);
      var s, a := After(cfg, actions[..n]), actions[n];
      if Enabled(s, a) {
        AlwaysReads(cfg, actions[..n], key);
        AlwaysTells(cfg, actions[..n], key);
        AlwaysInv(cfg, actions[..n]);
        OrderlyRun(cfg, s, key);
        StepBackoff(cfg, s, a, key, Strikes(cfg, actions[..n], key));
      }
    }
  }

  lemma GapOver(s: State, key: ResourceKey, streak: seq<Strike>)
    requires BackoffKept(s, key, streak) && CircuitTells(s, key, streak) && Exclusive(s, key) && streak != []
    requires InPhase(s, key) && !s.inflight[key].phase.Delivering? && !IsOpen(CircuitOf(s, key), s.clock)
    ensures GapPassed(s.clock, streak)
  {
    RefreshAfterBackoff(s, key, BackoffEnd(streak));
    ClosedAfterGap(s, key, streak);
    GapCovers(|streak|, streak[|streak| - 1].retryAfter);
  }

  /** Exponential backoff, the hint up to five minutes, and open period of the last failure have passed. */
  predicate GapPassed(clock: nat, streak: seq<Strike>)
    requires streak != []
  {
    var last := streak[|streak| - 1];
    && clock >= last.at + Exponential(|streak|)
    && (last.retryAfter.Some? ==> clock >= last.at + Min(last.retryAfter.value, 300_000))
    && clock >= last.at + CircuitGap(|streak|)
  }

  lemma ReadsExclusive(s: State, key: ResourceKey, latest: Previous)
    requires Reads(s, key, latest)
    ensures Exclusive(s, key)
  {
  }

  /**
   In every run in which requests for a key do not overlap and no backoff is forgotten, whatever is
   interleaved on other keys, a refresh of the key that is past its circuit check runs only after
   the whole gap of its last counted failure: backoff, the server's hint, and open period.
   */
  lemma FetchesAfterGap(cfg: Config, actions: seq<Action>, key: ResourceKey)
    requires Honest(cfg) && NeverOverlap(cfg, actions, key) && NeverForgets(cfg, actions, key)
    requires InPhase(After(cfg, actions), key) && PastCheck(After(cfg, actions).inflight[key].phase)
    ensures var streak := Strikes(cfg, actions, key);
            streak != [] ==> GapPassed(After(cfg, actions).clock, streak)
  {
    var s, streak := After(cfg, actions), Strikes(cfg, actions, key);
    HonestRouting(cfg);
    AlwaysKept(cfg, actions, key);
    AlwaysTells(cfg, actions, key);
    AlwaysReads(cfg, actions, key);
    ReadsExclusive(s, key, Latest(cfg, actions, key));
    NoFetchWhileChecked(cfg, actions, key);
    if streak != [] {
      GapOver(s, key, streak);
    }
  }

  lemma NoFetchWhileChecked(cfg: Config, actions: seq<Action>, key: ResourceKey)
    requires DirectoryRouting(cfg) && InPhase(After(cfg, actions), key)
    requires PastCheck(After(cfg, actions).inflight[key].phase)
    ensures !IsOpen(CircuitOf(After(cfg, actions), key), After(cfg, actions).clock)
  {
    AlwaysInv(cfg, actions);
    PastCheckClosed(cfg, After(cfg, actions), key);
  }

  /** In every such run the (7+j)-th failure of a streak is counted at least 465+300j seconds after the first. */
  lemma KeptStreaksAreSlow(cfg: Config, actions: seq<Action>, key: ResourceKey, j: nat)
    requires Honest(cfg) && NeverOverlap(cfg, actions, key) && NeverForgets(cfg, actions, key)
    requires 6 + j < |Strikes(cfg, actions, key)|
    ensures var streak := Strikes(cfg, actions, key);
            streak[6 + j].at - streak[0].at >= 465_000 + 300_000 * j
  {
    HonestRouting(cfg);
    AlwaysKept(cfg, actions, key);
    SpacedApart(Strikes(cfg, actions, key));
    StreakDuration(Strikes(cfg, actions, key), j);
  }
}
