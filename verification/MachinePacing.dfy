/** What every interleaving keeps about failures: the circuit alone keeps them apart. */
module MachinePacing {
  import opened Wrappers
  import opened Fetch
  import opened Resource
  import opened Wire
  import opened Representations
  import opened Circuits
  import opened Loads
  import opened Machine
  import opened MachineSafety

  /** A refresh that has ended in a transient failure that is not counted yet. */
  predicate IsStrike(phase: Phase) {
    phase.Settling? && phase.result.Err? && Class(phase.result.error) == Transient
  }

  predicate Striking(s: State, key: ResourceKey) {
    InPhase(s, key) && IsStrike(s.inflight[key].phase)
  }

  /** The streak after a refresh was settled. */
  function SettledStreak(s: State, streak: seq<Strike>, result: LoadResult): seq<Strike> {
    match result
    case Ok(_) => []
    case Err(error) => if Class(error) == Transient then streak + [Strike(s.clock, error.retryAfter)] else streak
  }

  function NextStrikes(s: State, a: Action, key: ResourceKey, streak: seq<Strike>): seq<Strike>
    requires Enabled(s, a)
  {
    if a == Lose(key, CircuitStore) then []
    else if a.FromFetch? && a.key == key && a.finish.SettleCircuit? then
      SettledStreak(s, streak, s.inflight[key].phase.result)
    else streak
  }

  /** The transient failures of a key since its circuit was last reset or lost, over a run. */
  function Strikes(cfg: Config, actions: seq<Action>, key: ResourceKey): seq<Strike> {
    if actions == [] then []
    else
      var n := |actions| - 1;
      var s, before := After(cfg, actions[..n]), Strikes(cfg, actions[..n], key);
      if Enabled(s, actions[n]) then NextStrikes(s, actions[n], key, before) else before
  }

  /** The circuit tells the streak, whose failures are apart, and an uncounted failure finds it closed. */
  ghost predicate CircuitTells(s: State, key: ResourceKey, streak: seq<Strike>) {
    && CircuitOf(s, key) == AfterStreak(streak)
    && Apart(streak, CircuitGap)
    && (streak != [] ==> streak[|streak| - 1].at <= s.clock)
    && (Striking(s, key) ==> !IsOpen(CircuitOf(s, key), s.clock))
  }

  /** A step that leaves clock and circuit alone and ends no refresh of the key in a transient failure. */
  ghost predicate Calm(s: State, s': State, key: ResourceKey) {
    && s'.clock >= s.clock && CircuitOf(s', key) == CircuitOf(s, key)
    && (Striking(s', key) ==> Striking(s, key))
  }

  /** As before, or the refresh fails but its circuit is not open. */
  ghost predicate CalmOrClosed(s: State, s': State, key: ResourceKey) {
    && s'.clock >= s.clock && CircuitOf(s', key) == CircuitOf(s, key)
    && (Striking(s', key) ==> Striking(s, key) || !IsOpen(CircuitOf(s, key), s.clock))
  }

  lemma StillTells(s: State, s': State, key: ResourceKey, streak: seq<Strike>)
    requires CircuitTells(s, key, streak) && CalmOrClosed(s, s', key)
    ensures CircuitTells(s', key, streak)
  {
  }

  lemma SameIsCalm(s: State, s': State, key: ResourceKey)
    requires SameRefreshes(s, s')
    ensures Calm(s, s', key)
  {
  }

  lemma GetWithCalm(s: State, who: nat, key: ResourceKey)
    requires At(s, who) && s.active[who].pc.Getting?
    ensures Calm(s, DoGetWith(s, who), key)
  {
    var a, s' := s.active[who], DoGetWith(s, who);
    if HasOutcome(s, a.key) || InPhase(s, a.key) {
      SameIsCalm(s, s', key);
    } else {
      assert s'.inflight == s.inflight[a.key := Refresh(s.nextRefresh, who, a.pc.previous, Checking)];
    }
  }

  lemma CancelCalm(s: State, who: nat, key: ResourceKey)
    requires At(s, who)
    ensures Calm(s, Finish(Abort(s, who), who, Err(Plain(Timeout))), key)
  {
  }

  lemma RequestCalm(cfg: Config, s: State, who: nat, step: RequestStep, key: ResourceKey)
    requires At(s, who) && RequestCan(s, who, step)
    ensures Calm(s, DoRequest(cfg, s, who, step), key)
  {
    var s' := DoRequest(cfg, s, who, step);
    match step
    case GetWith => GetWithCalm(s, who, key);
    case Cancel => CancelCalm(s, who, key);
    case _ => SameIsCalm(s, s', key);
  }

  lemma PhasedCalm(s: State, k: ResourceKey, phase: Phase, permits: nat, key: ResourceKey)
    requires InPhase(s, k)
    requires k == key && IsStrike(phase) ==> !IsOpen(CircuitOf(s, key), s.clock)
    ensures CalmOrClosed(s, Phased(s, k, phase).(permits := permits), key)
  {
  }

  lemma StopCalm(s: State, k: ResourceKey, error: FetchError, key: ResourceKey)
    requires InPhase(s, k)
    requires k == key && Class(error) == Transient ==> !IsOpen(CircuitOf(s, key), s.clock)
    ensures CalmOrClosed(s, Stop(s, k, error), key)
  {
    PhasedCalm(s, k, Settling(Err(error)), s.permits + 1, key);
    PhasedCalm(s, k, Settling(Err(error)), s.permits, key);
    assert Phased(s, k, Settling(Err(error))).(permits := s.permits) == Phased(s, k, Settling(Err(error)));
  }

  lemma MovedOnCalm(s: State, k: ResourceKey, phase: Phase, key: ResourceKey)
    requires InPhase(s, k) && !IsStrike(phase)
    ensures CalmOrClosed(s, Phased(s, k, phase), key)
  {
    PhasedCalm(s, k, phase, s.permits, key);
    assert Phased(s, k, phase).(permits := s.permits) == Phased(s, k, phase);
  }

  lemma CheckCalm(s: State, k: ResourceKey, key: ResourceKey)
    requires InPhase(s, k)
    ensures CalmOrClosed(s, DoCheck(s, k), key)
  {
    if IsOpen(CircuitOf(s, k), s.clock) {
      StopCalm(s, k, Plain(CircuitOpen), key);
    } else {
      MovedOnCalm(s, k, Cleared, key);
    }
  }

  lemma FetchCalm(s: State, k: ResourceKey, step: FetchStep, key: ResourceKey)
    requires InPhase(s, k) && FetchCan(s, k, step)
    requires k == key && PastCheck(s.inflight[k].phase) ==> !IsOpen(CircuitOf(s, key), s.clock)
    ensures CalmOrClosed(s, DoFetch(s, k, step), key)
  {
    match step
    case CheckCircuit => CheckCalm(s, k, key);
    case Refuse(error) => StopCalm(s, k, error, key);
    case Acquire => PhasedCalm(s, k, Admitting, s.permits - 1, key);
    case Deny => StopCalm(s, k, Plain(RateLimited), key);
    case Admit => MovedOnCalm(s, k, Fetching, key);
  }

  lemma ReceiveCalm(cfg: Config, s: State, k: ResourceKey, response: Response, wall: int, key: ResourceKey)
    requires InPhase(s, k)
    ensures CalmOrClosed(s, DoReceive(cfg, s, k, response, wall), key)
  {
    var r := s.inflight[k];
    match FromResponse(cfg.lib, k, r.previous, response, wall, r.id)
    case Ok(rep) =>
    case Err(error) => StopCalm(s, k, error, key);
  }

  lemma DeliverCalm(s: State, k: ResourceKey, key: ResourceKey)
    requires InPhase(s, k) && s.inflight[k].phase.Delivering?
    ensures Calm(s, DoDeliver(s, k), key)
  {
  }

  lemma PublishCalm(s: State, k: ResourceKey, key: ResourceKey)
    requires InPhase(s, k) && s.inflight[k].phase.Publishing?
    ensures Calm(s, DoPublish(s, k), key)
  {
  }

  lemma OtherSettleCalm(s: State, k: ResourceKey, key: ResourceKey)
    requires InPhase(s, k) && s.inflight[k].phase.Settling? && k != key
    ensures Calm(s, DoSettle(s, k), key)
  {
    var circuits := SettledCircuits(s, k, s.inflight[k].phase.result);
    assert key in circuits <==> key in s.circuits;
  }

  lemma FinishCalm(cfg: Config, s: State, k: ResourceKey, step: FinishStep, key: ResourceKey)
    requires InPhase(s, k) && FinishCan(s, k, step) && !(k == key && step.SettleCircuit?)
    requires k == key && PastCheck(s.inflight[k].phase) ==> !IsOpen(CircuitOf(s, key), s.clock)
    ensures CalmOrClosed(s, DoFinish(cfg, s, k, step), key)
  {
    match step
    case Fail(error) => StopCalm(s, k, error, key);
    case Receive(response, wall) => ReceiveCalm(cfg, s, k, response, wall, key);
    case Publish => PublishCalm(s, k, key);
    case SettleCircuit => OtherSettleCalm(s, k, key);
    case Deliver => DeliverCalm(s, k, key);
  }

  /** A transient failure is counted only when the circuit's open period is over. */
  lemma StrikeIsApart(s: State, key: ResourceKey, streak: seq<Strike>, strike: Strike)
    requires CircuitTells(s, key, streak) && Striking(s, key) && strike.at == s.clock
    ensures Apart(streak + [strike], CircuitGap)
    ensures AfterStreak(streak + [strike]) == AfterFailure(CircuitOf(s, key), s.clock)
  {
    StreakState(streak);
    ApartAppend(streak, strike, CircuitGap);
    AfterStreakAppend(streak, strike);
  }

  lemma SettledCircuit(s: State, key: ResourceKey, result: LoadResult)
    ensures var circuits := SettledCircuits(s, key, result);
            (if key in circuits then circuits[key] else CLOSED) ==
            match result
            case Ok(_) => CLOSED
            case Err(error) => if Class(error) == Transient then AfterFailure(CircuitOf(s, key), s.clock) else CircuitOf(s, key)
  {
  }

  lemma SettledTells(
    s: State, key: ResourceKey, streak: seq<Strike>, circuits: map<ResourceKey, Circuit>, outcome: Outcome)
    requires InPhase(s, key) && Apart(streak, CircuitGap) && (streak != [] ==> streak[|streak| - 1].at <= s.clock)
    requires (if key in circuits then circuits[key] else CLOSED) == AfterStreak(streak)
    ensures CircuitTells(Phased(s.(circuits := circuits), key, Delivering(outcome)), key, streak)
  {
  }

  lemma SettleTells(s: State, key: ResourceKey, streak: seq<Strike>)
    requires CircuitTells(s, key, streak) && InPhase(s, key) && s.inflight[key].phase.Settling?
    ensures CircuitTells(DoSettle(s, key), key, SettledStreak(s, streak, s.inflight[key].phase.result))
  {
    var result := s.inflight[key].phase.result;
    SettledCircuit(s, key, result);
    if Striking(s, key) {
      StrikeIsApart(s, key, streak, Strike(s.clock, result.error.retryAfter));
    }
    SettledTells(s, key, SettledStreak(s, streak, result),
                 SettledCircuits(s, key, result), SettledOutcome(s, key, result));
  }

  lemma LoseTells(s: State, k: ResourceKey, store: Store, key: ResourceKey, streak: seq<Strike>)
    requires CircuitTells(s, key, streak)
    ensures CircuitTells(DoLose(s, k, store), key, if k == key && store.CircuitStore? then [] else streak)
  {
  }

  lemma FetchTells(s: State, k: ResourceKey, step: FetchStep, key: ResourceKey, streak: seq<Strike>)
    requires InPhase(s, k) && FetchCan(s, k, step) && CircuitTells(s, key, streak)
    requires k == key && PastCheck(s.inflight[k].phase) ==> !IsOpen(CircuitOf(s, key), s.clock)
    ensures CircuitTells(DoFetch(s, k, step), key, streak)
  {
    FetchCalm(s, k, step, key);
    StillTells(s, DoFetch(s, k, step), key, streak);
  }

  lemma FinishTells(cfg: Config, s: State, k: ResourceKey, step: FinishStep, key: ResourceKey, streak: seq<Strike>)
    requires InPhase(s, k) && FinishCan(s, k, step) && CircuitTells(s, key, streak)
    requires k == key && PastCheck(s.inflight[k].phase) ==> !IsOpen(CircuitOf(s, key), s.clock)
    ensures CircuitTells(DoFinish(cfg, s, k, step), key, NextStrikes(s, FromFetch(k, step), key, streak))
  {
    if k == key && step.SettleCircuit? {
      SettleTells(s, key, streak);
    } else {
      FinishCalm(cfg, s, k, step, key);
      StillTells(s, DoFinish(cfg, s, k, step), key, streak);
    }
  }

  lemma RequestTells(cfg: Config, s: State, who: nat, step: RequestStep, key: ResourceKey, streak: seq<Strike>)
    requires At(s, who) && RequestCan(s, who, step) && CircuitTells(s, key, streak)
    ensures CircuitTells(DoRequest(cfg, s, who, step), key, streak)
  {
    RequestCalm(cfg, s, who, step, key);
    StillTells(s, DoRequest(cfg, s, who, step), key, streak);
  }

  lemma AcceptTells(cfg: Config, s: State, request: ResolveRequest, key: ResourceKey, streak: seq<Strike>)
    requires CircuitTells(s, key, streak)
    ensures CircuitTells(DoAccept(cfg, s, request), key, streak)
  {
    SameIsCalm(s, DoAccept(cfg, s, request), key);
    StillTells(s, DoAccept(cfg, s, request), key, streak);
  }

  lemma TickTells(s: State, elapsed: nat, key: ResourceKey, streak: seq<Strike>)
    requires CircuitTells(s, key, streak)
    ensures CircuitTells(s.(clock := s.clock + elapsed), key, streak)
  {
    StillTells(s, s.(clock := s.clock + elapsed), key, streak);
  }

  lemma ClosedIfPastCheck(cfg: Config, s: State, key: ResourceKey)
    requires Inv(cfg, s)
    ensures InPhase(s, key) && PastCheck(s.inflight[key].phase) ==> !IsOpen(CircuitOf(s, key), s.clock)
  {
    if InPhase(s, key) && PastCheck(s.inflight[key].phase) {
      PastCheckClosed(cfg, s, key);
    }
  }

  lemma StepTells(cfg: Config, s: State, a: Action, key: ResourceKey, streak: seq<Strike>)
    requires InPhase(s, key) && PastCheck(s.inflight[key].phase) ==> !IsOpen(CircuitOf(s, key), s.clock)
    requires Enabled(s, a) && CircuitTells(s, key, streak)
    ensures CircuitTells(Apply(cfg, s, a), key, NextStrikes(s, a, key, streak))
  {
    match a
    case Tick(elapsed) => TickTells(s, elapsed, key, streak);
    case Accept(request) => AcceptTells(cfg, s, request, key, streak);
    case OfRequest(who, step) => RequestTells(cfg, s, who, step, key, streak);
    case ToFetch(k, step) => FetchTells(s, k, step, key, streak);
    case FromFetch(k, step) => FinishTells(cfg, s, k, step, key, streak);
    case Lose(k, store) => LoseTells(s, k, store, key, streak);
  }

  lemma {:induction false} AlwaysTells(cfg: Config, actions: seq<Action>, key: ResourceKey)
    requires DirectoryRouting(cfg)
    ensures CircuitTells(After(cfg, actions), key, Strikes(cfg, actions, key))
  {
    if actions != [] {
      var n := |actions| - 1;
      AlwaysTells(cfg, actions[..n], key);
      AlwaysInv(cfg, actions[..n]);
      var s := After(cfg, actions[..n]);
      ClosedIfPastCheck(cfg, s, key);
      if Enabled(s, actions[n]) {
        StepTells(cfg, s, actions[n], key, Strikes(cfg, actions[..n], key));
      }
    }
  }

  lemma ClosedAfterGap(s: State, key: ResourceKey, streak: seq<Strike>)
    requires CircuitTells(s, key, streak) && !IsOpen(CircuitOf(s, key), s.clock) && streak != []
    ensures s.clock >= streak[|streak| - 1].at + CircuitGap(|streak|)
  {
    StreakState(streak);
  }

  /**
   In every interleaving, with any cancellations and losses, a refresh that is past its circuit
   check runs only after the open period of the key's last counted failure.
   */
  lemma FetchesAfterOpenPeriod(cfg: Config, actions: seq<Action>, key: ResourceKey)
    requires Honest(cfg) && InPhase(After(cfg, actions), key)
    requires PastCheck(After(cfg, actions).inflight[key].phase)
    ensures var streak := Strikes(cfg, actions, key);
            streak != [] ==> After(cfg, actions).clock >= streak[|streak| - 1].at + CircuitGap(|streak|)
  {
    var s, streak := After(cfg, actions), Strikes(cfg, actions, key);
    HonestRouting(cfg);
    AlwaysInv(cfg, actions);
    ClosedIfPastCheck(cfg, s, key);
    AlwaysTells(cfg, actions, key);
    if streak != [] {
      ClosedAfterGap(s, key, streak);
    }
  }

  /**
   In every interleaving the (7+j)-th transient failure of a streak is counted at least 450+300j
   seconds after the first.
   */
  lemma StreaksAlwaysSlow(cfg: Config, actions: seq<Action>, key: ResourceKey, j: nat)
    requires Honest(cfg) && 6 + j < |Strikes(cfg, actions, key)|
    ensures var streak := Strikes(cfg, actions, key);
            streak[6 + j].at - streak[0].at >= 450_000 + 300_000 * j
  {
    HonestRouting(cfg);
    AlwaysTells(cfg, actions, key);
    CircuitDuration(Strikes(cfg, actions, key), j);
  }
}
