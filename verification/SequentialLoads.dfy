/**
 What every run of one-at-a-time loads of a key keeps, wherever the resolution timeout cuts a load
 off and whatever the bounded stores lose in between.
 */
module SequentialLoads {
  import opened Wrappers
  import opened Fetch
  import opened Resource
  import opened Representations
  import opened Circuits
  import opened Loads

  function Last(streak: seq<Strike>): Strike
    requires streak != []
  {
    streak[|streak| - 1]
  }

  // The circuit: it tells the streak, and keeps its failures apart, in every run.

  ghost predicate Tells(circuit: Option<TimedCircuit>, streak: seq<Strike>, clock: nat) {
    && Apart(streak, CircuitGap)
    && (circuit.None? ==> streak == [])
    && (circuit.Some? ==>
          && circuit.value.touched <= clock
          && circuit.value.state == AfterStreak(streak)
          && (streak != [] ==> Last(streak).at <= circuit.value.touched))
  }

  /** No outcome is valid for longer than the store keeps it. */
  predicate WithinTtl(held: Option<Held>, clock: nat) {
    held.Some? ==> held.value.since <= clock && held.value.outcome.validUntil <= held.value.since + REFRESH_TTL
  }

  ghost predicate Told(t: Track) {
    Tells(t.entry.circuit, t.streak, t.clock) && WithinTtl(t.entry.held, t.clock)
  }

  /** What the circuit store answers at the check is the streak the check finds. */
  lemma CircuitAtCheck(t: Track, v: Visit)
    requires Told(t) && Follows(t, v)
    ensures CircuitAt(t.entry.circuit, v.check) == AfterStreak(CheckedStreak(t, v))
    ensures Apart(CheckedStreak(t, v), CircuitGap)
    ensures CheckedStreak(t, v) != [] ==> CheckedStreak(t, v) == t.streak && Last(t.streak).at <= v.check
  {
  }

  /** The circuit a refresh is concluded on, with the streak that goes with it. */
  lemma CircuitAtSettle(t: Track, v: Visit)
    requires Told(t) && Follows(t, v)
    ensures CircuitAt(Some(CheckedCircuit(t.entry, v)), v.settled) == AfterStreak(KeptStreak(t, v))
    ensures Apart(KeptStreak(t, v), CircuitGap)
    ensures KeptStreak(t, v) != [] ==> KeptStreak(t, v) == t.streak && Last(t.streak).at <= v.check
  {
    CircuitAtCheck(t, v);
  }

  /** A fetch begins only after the circuit's open period. */
  lemma FetchAfterCircuitGap(t: Track, v: Visit)
    requires Told(t) && Follows(t, v) && Fetches(t.entry, v)
    ensures var streak := CheckedStreak(t, v);
            streak != [] ==> v.check >= Last(streak).at + CircuitGap(|streak|)
  {
    CircuitAtCheck(t, v);
    StreakState(CheckedStreak(t, v));
  }

  /** What is left of an open period fits the refresh store's life time. */
  lemma RemainingBounded(streak: seq<Strike>, now: nat)
    requires streak != [] ==> Last(streak).at <= now
    ensures Remaining(AfterStreak(streak), now) <= MAX_FAILURE_BACKOFF
  {
    StreakState(streak);
  }

  /** A transient failure follows a fetch, so it extends the streak after the circuit's gap. */
  lemma StrikeKeepsApart(lib: Library, key: ResourceKey, t: Track, v: Visit, error: FetchError)
    requires Told(t) && Follows(t, v) && Lookup(t.entry, v).None?
    requires RefreshResult(lib, key, t.entry, v) == Err(error) && Class(error) == Transient
    ensures var more := KeptStreak(t, v) + [Strike(v.settled, error.retryAfter)];
            && Apart(more, CircuitGap)
            && AfterStreak(more) == AfterFailure(AfterStreak(KeptStreak(t, v)), v.settled)
  {
    var strike := Strike(v.settled, error.retryAfter);
    CircuitAtSettle(t, v);
    FetchAfterCircuitGap(t, v);
    ApartAppend(KeptStreak(t, v), strike, CircuitGap);
    AfterStreakAppend(KeptStreak(t, v), strike);
  }

  lemma CheckTells(t: Track, v: Visit)
    requires Told(t) && Follows(t, v)
    ensures Tells(Some(CheckedCircuit(t.entry, v)), CheckedStreak(t, v), v.check)
  {
    CircuitAtCheck(t, v);
  }

  lemma SettleTells(t: Track, v: Visit, result: Result<Representation, FetchError>)
    requires Told(t) && Follows(t, v)
    requires result.Err? && Class(result.error) == Transient ==>
               Apart(KeptStreak(t, v) + [Strike(v.settled, result.error.retryAfter)], CircuitGap)
    ensures Tells(Concluded(t.entry, v, result).circuit, NextStreak(t, v, result), v.settled)
  {
    CheckTells(t, v);
    CircuitAtSettle(t, v);
    if result.Err? && Class(result.error) == Transient {
      AfterStreakAppend(KeptStreak(t, v), Strike(v.settled, result.error.retryAfter));
    }
  }

  /** The outcome of a refresh is held no longer than the store does. */
  lemma ConcludedWithinTtl(t: Track, v: Visit, result: Result<Representation, FetchError>)
    requires Told(t) && Follows(t, v)
    ensures WithinTtl(Concluded(t.entry, v, result).held, v.stored)
  {
    CircuitAtSettle(t, v);
    RemainingBounded(KeptStreak(t, v), v.settled);
  }

  /** Concluding a refresh tells the next streak. */
  lemma ConcludedTells(lib: Library, key: ResourceKey, t: Track, v: Visit)
    requires Told(t) && Follows(t, v) && Lookup(t.entry, v).None?
    ensures var result := RefreshResult(lib, key, t.entry, v);
            Tells(Concluded(t.entry, v, result).circuit, NextStreak(t, v, result), v.settled)
  {
    var result := RefreshResult(lib, key, t.entry, v);
    if result.Err? && Class(result.error) == Transient {
      StrikeKeepsApart(lib, key, t, v, result.error);
    }
    SettleTells(t, v, result);
  }

  lemma ReachedTells(lib: Library, key: ResourceKey, t: Track, v: Visit, cut: Cut)
    requires Told(t) && Follows(t, v)
    ensures Told(Reached(lib, key, t, v, cut))
  {
    if Lookup(t.entry, v).None? {
      if cut.CircuitSettled? || cut.OutcomeStored? {
        ConcludedTells(lib, key, t, v);
        ConcludedWithinTtl(t, v, RefreshResult(lib, key, t.entry, v));
      } else {
        CheckTells(t, v);
      }
    }
  }

  lemma {:induction false} RunTells(lib: Library, key: ResourceKey, events: seq<Event>)
    requires Sequential(lib, key, events)
    ensures Told(Run(lib, key, events))
  {
    if events != [] {
      var n := |events| - 1;
      SequentialPrefix(lib, key, events, n);
      RunTells(lib, key, events[..n]);
      var t := Run(lib, key, events[..n]);
      match events[n]
      case Load(v) => ReachedTells(lib, key, t, v, OutcomeStored);
      case CutOff(v, cut) => ReachedTells(lib, key, t, v, cut);
      case _ =>
    }
  }

  /**
   In every run of one-at-a-time loads, cut off or not, whatever the stores lose, a fetch starts
   only when the open period after the last transient failure of the streak is over.
   */
  lemma NoFetchInOpenPeriod(lib: Library, key: ResourceKey, events: seq<Event>, v: Visit)
    requires Sequential(lib, key, events) && Follows(Run(lib, key, events), v)
    requires Fetches(Run(lib, key, events).entry, v)
    ensures var streak := CheckedStreak(Run(lib, key, events), v);
            streak != [] ==> v.check >= Last(streak).at + CircuitGap(|streak|)
  {
    RunTells(lib, key, events);
    FetchAfterCircuitGap(Run(lib, key, events), v);
  }

  /** In every such run the (7+j)-th failure of a streak comes at least 450+300j seconds after the first. */
  lemma StreaksAreSlow(lib: Library, key: ResourceKey, events: seq<Event>, j: nat)
    requires Sequential(lib, key, events) && 6 + j < |Run(lib, key, events).streak|
    ensures var streak := Run(lib, key, events).streak;
            streak[6 + j].at - streak[0].at >= 450_000 + 300_000 * j
  {
    RunTells(lib, key, events);
    CircuitDuration(Run(lib, key, events).streak, j);
  }

  /**
   Store expiry never cuts a decision short: while an outcome is valid the refresh store still
   holds it, and while a circuit is open the circuit store still holds it.
   */
  lemma ExpiryKeepsDecisions(lib: Library, key: ResourceKey, events: seq<Event>, now: nat)
    requires Sequential(lib, key, events) && now >= Run(lib, key, events).clock
    ensures var e := Run(lib, key, events).entry;
            && (e.held.Some? && now < e.held.value.outcome.validUntil ==>
                  OutcomeAt(e.held, now) == Some(e.held.value.outcome))
            && (e.circuit.Some? && IsOpen(e.circuit.value.state, now) ==>
                  CircuitAt(e.circuit, now) == e.circuit.value.state)
  {
    RunTells(lib, key, events);
    StreakState(Run(lib, key, events).streak);
  }

  // The backoff: held by the outcome, unless that is lost or never stored.

  /** When the last failure's backoff, hint included, is over. */
  function BackoffEnd(t: Track): nat
    requires t.streak != []
  {
    Last(t.streak).at + Backoff(|t.streak|, Last(t.streak).retryAfter)
  }

  /** The last failure's backoff is over, or an outcome is held that lasts as long. */
  predicate BackoffHeld(t: Track) {
    t.streak != [] ==>
      t.clock >= BackoffEnd(t) || (t.entry.held.Some? && t.entry.held.value.outcome.validUntil >= BackoffEnd(t))
  }

  /** An event that can take a backoff away: its outcome is lost, or its load cut off before storing it. */
  predicate ForgetsBackoff(lib: Library, key: ResourceKey, t: Track, event: Event) {
    match event
    case LoseOutcome => true
    case CutOff(v, CircuitSettled) =>
      var result := RefreshResult(lib, key, t.entry, v);
      Lookup(t.entry, v).None? && result.Err? && Class(result.error) == Transient
    case _ => false
  }

  ghost predicate KeepsBackoffs(lib: Library, key: ResourceKey, events: seq<Event>) {
    forall i :: 0 <= i < |events| ==> !ForgetsBackoff(lib, key, Run(lib, key, events[..i]), events[i])
  }

  ghost predicate Paced(t: Track) {
    Told(t) && Spaced(t.streak) && BackoffHeld(t)
  }

  /** A refresh begins only after the last failure's backoff. */
  lemma RefreshAfterBackoff(t: Track, v: Visit)
    requires Told(t) && BackoffHeld(t) && Follows(t, v) && Lookup(t.entry, v).None? && t.streak != []
    ensures v.read >= BackoffEnd(t)
  {
  }

  /** A fetch begins only after the whole gap: backoff, hint and open period. */
  lemma FetchAfterGap(t: Track, v: Visit)
    requires Told(t) && BackoffHeld(t) && Follows(t, v) && Fetches(t.entry, v)
    ensures var streak := CheckedStreak(t, v);
            streak != [] ==> v.check >= Last(streak).at + Gap(|streak|, Last(streak).retryAfter)
  {
    FetchAfterCircuitGap(t, v);
    if CheckedStreak(t, v) != [] {
      RefreshAfterBackoff(t, v);
    }
  }

  /** The outcome of a transient failure holds its backoff. */
  lemma OutcomeHoldsBackoff(t: Track, v: Visit, error: FetchError)
    requires Told(t) && Follows(t, v) && Class(error) == Transient
    ensures var n := |KeptStreak(t, v)| + 1;
            Concluded(t.entry, v, Err(error)).held.value.outcome.validUntil >= v.settled + Backoff(n, error.retryAfter)
  {
    var more := KeptStreak(t, v) + [Strike(v.settled, error.retryAfter)];
    CircuitAtSettle(t, v);
    AfterStreakAppend(KeptStreak(t, v), Strike(v.settled, error.retryAfter));
    StreakState(more);
    BackoffSaturated(|more|, error.retryAfter);
  }

  lemma StrikeKeepsSpaced(lib: Library, key: ResourceKey, t: Track, v: Visit, error: FetchError)
    requires Paced(t) && Follows(t, v) && Lookup(t.entry, v).None?
    requires RefreshResult(lib, key, t.entry, v) == Err(error) && Class(error) == Transient
    ensures Spaced(KeptStreak(t, v) + [Strike(v.settled, error.retryAfter)])
  {
    FetchAfterGap(t, v);
    CircuitAtSettle(t, v);
    SpacedAppend(KeptStreak(t, v), Strike(v.settled, error.retryAfter));
  }

  lemma StrikeIsHeld(lib: Library, key: ResourceKey, t: Track, v: Visit, error: FetchError)
    requires Told(t) && Follows(t, v) && Lookup(t.entry, v).None?
    requires RefreshResult(lib, key, t.entry, v) == Err(error) && Class(error) == Transient
    ensures var t' := Reached(lib, key, t, v, OutcomeStored);
            t'.streak == KeptStreak(t, v) + [Strike(v.settled, error.retryAfter)] && BackoffHeld(t')
  {
    OutcomeHoldsBackoff(t, v, error);
  }

  /** A transient failure extends the streak after its whole gap, and its outcome holds its backoff. */
  lemma TransientKeepsPace(lib: Library, key: ResourceKey, t: Track, v: Visit, error: FetchError)
    requires Paced(t) && Follows(t, v) && Lookup(t.entry, v).None?
    requires RefreshResult(lib, key, t.entry, v) == Err(error) && Class(error) == Transient
    ensures Paced(Reached(lib, key, t, v, OutcomeStored))
  {
    ReachedTells(lib, key, t, v, OutcomeStored);
    StrikeKeepsSpaced(lib, key, t, v, error);
    StrikeIsHeld(lib, key, t, v, error);
  }

  /** Without a new failure the old backoff is over by the time a refresh begins. */
  lemma OtherKeepsPace(lib: Library, key: ResourceKey, t: Track, v: Visit, cut: Cut)
    requires Paced(t) && Follows(t, v) && Lookup(t.entry, v).None?
    requires var result := RefreshResult(lib, key, t.entry, v);
             (cut.CircuitSettled? || cut.OutcomeStored?) && result.Err? ==> Class(result.error) != Transient
    ensures Paced(Reached(lib, key, t, v, cut))
  {
    ReachedTells(lib, key, t, v, cut);
    if t.streak != [] {
      RefreshAfterBackoff(t, v);
    }
  }

  lemma EventKeepsPace(lib: Library, key: ResourceKey, t: Track, event: Event)
    requires Paced(t) && !ForgetsBackoff(lib, key, t, event)
    requires IsVisit(event) ==> Follows(t, event.visit)
    ensures Paced(Next(lib, key, t, event))
  {
    if IsVisit(event) && Lookup(t.entry, event.visit).None? {
      var v := event.visit;
      var cut := if event.Load? then OutcomeStored else event.cut;
      var result := RefreshResult(lib, key, t.entry, v);
      if cut.OutcomeStored? && result.Err? && Class(result.error) == Transient {
        TransientKeepsPace(lib, key, t, v, result.error);
      } else {
        OtherKeepsPace(lib, key, t, v, cut);
      }
    }
  }

  lemma {:induction false} RunIsPaced(lib: Library, key: ResourceKey, events: seq<Event>)
    requires Sequential(lib, key, events) && KeepsBackoffs(lib, key, events)
    ensures Paced(Run(lib, key, events))
  {
    if events != [] {
      var n := |events| - 1;
      SequentialPrefix(lib, key, events, n);
      KeepsBackoffsPrefix(lib, key, events, n);
      RunIsPaced(lib, key, events[..n]);
      EventKeepsPace(lib, key, Run(lib, key, events[..n]), events[n]);
    }
  }

  lemma KeepsBackoffsPrefix(lib: Library, key: ResourceKey, events: seq<Event>, n: nat)
    requires KeepsBackoffs(lib, key, events) && n <= |events|
    ensures KeepsBackoffs(lib, key, events[..n])
  {
    forall i | 0 <= i < n ensures !ForgetsBackoff(lib, key, Run(lib, key, events[..n][..i]), events[..n][i]) {
      assert events[..n][..i] == events[..i] && events[..n][i] == events[i];
    }
  }

  /**
   In every run of one-at-a-time loads, cut off or not, that stores the outcome of every transient
   failure and loses none, a fetch starts only when the whole gap after the last failure of the
   streak is over: backoff, the server's hint, and open period.
   */
  lemma NoEarlyFetch(lib: Library, key: ResourceKey, events: seq<Event>, v: Visit)
    requires Sequential(lib, key, events) && KeepsBackoffs(lib, key, events)
    requires Follows(Run(lib, key, events), v) && Fetches(Run(lib, key, events).entry, v)
    ensures var streak := CheckedStreak(Run(lib, key, events), v);
            streak != [] ==>
              && v.check >= Last(streak).at + Exponential(|streak|)
              && (Last(streak).retryAfter.Some? ==> v.check >= Last(streak).at + Min(Last(streak).retryAfter.value, 300_000))
              && v.check >= Last(streak).at + CircuitGap(|streak|)
  {
    var streak := CheckedStreak(Run(lib, key, events), v);
    RunIsPaced(lib, key, events);
    FetchAfterGap(Run(lib, key, events), v);
    if streak != [] {
      GapCovers(|streak|, Last(streak).retryAfter);
    }
  }

  /** In every such run the (7+j)-th failure of a streak comes at least 465+300j seconds after the first. */
  lemma PacedStreaksAreSlow(lib: Library, key: ResourceKey, events: seq<Event>, j: nat)
    requires Sequential(lib, key, events) && KeepsBackoffs(lib, key, events)
    requires 6 + j < |Run(lib, key, events).streak|
    ensures var streak := Run(lib, key, events).streak;
            streak[6 + j].at - streak[0].at >= 465_000 + 300_000 * j
  {
    RunIsPaced(lib, key, events);
    SpacedApart(Run(lib, key, events).streak);
    StreakDuration(Run(lib, key, events).streak, j);
  }

  /** A load that can follow and fetches inside the last failure's gap. */
  ghost predicate FetchesEarly(t: Track, v: Visit) {
    && Follows(t, v) && Fetches(t.entry, v) && CheckedStreak(t, v) != []
    && v.check < Last(t.streak).at + Gap(|t.streak|, Last(t.streak).retryAfter)
  }

  /** The earliest load that gets past the stores: no representation is fresh a day after it was stored. */
  function Earliest(t: Track): Visit
    requires t.streak != []
  {
    var at := Max(t.clock, Last(t.streak).at + CircuitGap(|t.streak|));
    var at := if t.entry.held.Some? then Max(at, t.entry.held.value.outcome.validUntil) else at;
    var wall := if t.entry.rep.Some? then t.entry.rep.value.storedAt + MAX_FRESHNESS else 0;
    Visit(wall, at, at, Stopped(Plain(Dns)), at, at, at, t.refreshes)
  }

  lemma EarliestFetches(t: Track)
    requires Told(t) && t.streak != [] && !BackoffHeld(t)
    requires CircuitGap(|t.streak|) < Backoff(|t.streak|, Last(t.streak).retryAfter)
    ensures FetchesEarly(t, Earliest(t))
  {
    StreakState(t.streak);
  }

  /**
   The exact condition. In every run, a load can follow that fetches inside the last failure's gap
   if and only if the failure's backoff is neither over nor held by an outcome, and it outlasts the
   circuit's open period: it is one of the first two failures or came with a longer hint.
   */
  lemma EarlyFetchIff(lib: Library, key: ResourceKey, events: seq<Event>)
    requires Sequential(lib, key, events) && Run(lib, key, events).streak != []
    ensures var t := Run(lib, key, events);
            var n, hint := |t.streak|, Last(t.streak).retryAfter;
            (exists v :: FetchesEarly(t, v)) <==>
            && !BackoffHeld(t)
            && (n < 3 || (hint.Some? && OpenFor(n - 3) < Min(hint.value, MAX_FAILURE_BACKOFF)))
  {
    var t := Run(lib, key, events);
    RunTells(lib, key, events);
    BackoffOutlastsCircuit(|t.streak|, Last(t.streak).retryAfter);
    if v :| FetchesEarly(t, v) {
      FetchAfterCircuitGap(t, v);
      if BackoffHeld(t) {
        FetchAfterGap(t, v);
      }
    }
    if !BackoffHeld(t) && CircuitGap(|t.streak|) < Backoff(|t.streak|, Last(t.streak).retryAfter) {
      EarliestFetches(t);
    }
  }

  /** A load cut off between counting a transient failure and storing its outcome leaves its backoff unheld. */
  lemma CutLeavesUnheld(lib: Library, key: ResourceKey, t: Track, v: Visit)
    requires Told(t) && Follows(t, v) && ForgetsBackoff(lib, key, t, CutOff(v, CircuitSettled))
    ensures var t' := Next(lib, key, t, CutOff(v, CircuitSettled));
            t'.streak != [] && !BackoffHeld(t')
  {
  }

  // Reads: a load never answers with anything but the last refresh published.

  ghost predicate HoldsLatest(t: Track) {
    && (t.entry.rep.Some? ==> t.entry.rep == t.latest && t.entry.rep.value.policy.storable)
    && (t.entry.held.Some? && t.entry.held.value.outcome.result.Ok? ==>
          && Some(t.entry.held.value.outcome.result.value) == t.latest
          && (!t.latest.value.policy.storable ==> t.entry.held.value.outcome.validUntil <= t.clock))
    && (t.latest.Some? ==> t.latest.value.refresh < t.refreshes)
  }

  lemma ReachedHoldsLatest(lib: Library, key: ResourceKey, t: Track, v: Visit, cut: Cut)
    requires HoldsLatest(t) && Follows(t, v)
    ensures HoldsLatest(Reached(lib, key, t, v, cut))
  {
  }

  lemma AnswerIsLatest(lib: Library, key: ResourceKey, t: Track, v: Visit)
    requires HoldsLatest(t) && Follows(t, v)
    ensures var loaded := LoadOnce(lib, key, t.entry, v);
            var latest := Next(lib, key, t, Load(v)).latest;
            loaded.answer.Ok? ==>
              && latest == Some(loaded.answer.value)
              && (loaded.refreshed || latest.value.policy.storable)
  {
  }

  lemma {:induction false} RunHoldsLatest(lib: Library, key: ResourceKey, events: seq<Event>)
    requires Sequential(lib, key, events)
    ensures HoldsLatest(Run(lib, key, events))
  {
    if events != [] {
      var n := |events| - 1;
      SequentialPrefix(lib, key, events, n);
      RunHoldsLatest(lib, key, events[..n]);
      var t := Run(lib, key, events[..n]);
      match events[n]
      case Load(v) => ReachedHoldsLatest(lib, key, t, v, OutcomeStored);
      case CutOff(v, cut) => ReachedHoldsLatest(lib, key, t, v, cut);
      case _ =>
    }
  }

  /** The load at position `i` of a run answers with this representation. */
  ghost predicate Answers(lib: Library, key: ResourceKey, events: seq<Event>, i: nat, rep: Representation) {
    && i < |events| && events[i].Load?
    && LoadOnce(lib, key, Run(lib, key, events[..i]).entry, events[i].visit).answer == Ok(rep)
  }

  /**
   In every run of one-at-a-time loads, cut off or not, whatever the stores lose in between, a load
   that answers with a representation answers with the last one published, be it by a load that
   was cut off afterwards; without a refresh of its own it only does so if that one may be stored.
   */
  lemma AnswersAreLatest(lib: Library, key: ResourceKey, events: seq<Event>, i: nat, rep: Representation)
    requires Sequential(lib, key, events) && Answers(lib, key, events, i, rep)
    ensures Run(lib, key, events[..i + 1]).latest == Some(rep)
    ensures rep.policy.storable || LoadOnce(lib, key, Run(lib, key, events[..i]).entry, events[i].visit).refreshed
  {
    SequentialPrefix(lib, key, events, i);
    RunHoldsLatest(lib, key, events[..i]);
    assert events[..i + 1][..i] == events[..i];
    AnswerIsLatest(lib, key, Run(lib, key, events[..i]), events[i].visit);
  }

  lemma LatestStep(lib: Library, key: ResourceKey, t: Track, event: Event)
    requires HoldsLatest(t) && t.latest.Some?
    requires IsVisit(event) ==> Follows(t, event.visit)
    ensures var next := Next(lib, key, t, event).latest;
            && next.Some? && t.latest.value.refresh <= next.value.refresh
            && (t.latest.value.refresh == next.value.refresh ==> t.latest == next)
  {
  }

  lemma {:induction false} LatestGrows(lib: Library, key: ResourceKey, events: seq<Event>, i: nat, j: nat)
    requires Sequential(lib, key, events) && i <= j <= |events|
    requires Run(lib, key, events[..i]).latest.Some?
    ensures var (a, b) := (Run(lib, key, events[..i]).latest, Run(lib, key, events[..j]).latest);
            b.Some? && a.value.refresh <= b.value.refresh
            && (a.value.refresh == b.value.refresh ==> a == b)
    decreases j
  {
    if i < j {
      LatestGrows(lib, key, events, i, j - 1);
      SequentialPrefix(lib, key, events, j - 1);
      RunHoldsLatest(lib, key, events[..j - 1]);
      assert events[..j][..j - 1] == events[..j - 1];
      LatestStep(lib, key, Run(lib, key, events[..j - 1]), events[j - 1]);
    }
  }

  /**
   Loads read monotonically: a later load never answers with an older refresh than an earlier
   one, and with the same refresh number only with the very same representation.
   */
  lemma ReadsAreMonotonic(
    lib: Library, key: ResourceKey, events: seq<Event>, i: nat, j: nat, a: Representation, b: Representation)
    requires Sequential(lib, key, events) && i < j
    requires Answers(lib, key, events, i, a) && Answers(lib, key, events, j, b)
    ensures a.refresh <= b.refresh && (a.refresh == b.refresh ==> a == b)
  {
    AnswersAreLatest(lib, key, events, i, a);
    AnswersAreLatest(lib, key, events, j, b);
    LatestGrows(lib, key, events, i + 1, j + 1);
  }

  /**
   Once a representation that may not be stored was published, by a load that ended or was cut off,
   no later load answers with it or with anything published before it.
   */
  lemma UnstorableEndsReads(
    lib: Library, key: ResourceKey, events: seq<Event>, i: nat, j: nat, a: Representation, b: Representation)
    requires Sequential(lib, key, events) && i <= j && Answers(lib, key, events, j, b)
    requires Run(lib, key, events[..i]).latest == Some(a) && !a.policy.storable
    ensures a.refresh < b.refresh
  {
    LatestGrows(lib, key, events, i, j);
    SequentialPrefix(lib, key, events, j);
    RunHoldsLatest(lib, key, events[..j]);
    NewOrStorable(lib, key, Run(lib, key, events[..j]), events[j].visit);
  }

  lemma NewOrStorable(lib: Library, key: ResourceKey, t: Track, v: Visit)
    requires HoldsLatest(t) && Follows(t, v) && t.latest.Some?
    ensures var answer := LoadOnce(lib, key, t.entry, v).answer;
            answer.Ok? ==>
              || t.latest.value.refresh < answer.value.refresh
              || (t.latest.value.policy.storable && answer.value == t.latest.value)
  {
  }
}
