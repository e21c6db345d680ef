/** Per-resource circuits: consecutive failures, backoff, and open periods, in milliseconds. */
module Circuits {
  import opened Wrappers
  import opened Representations

  const U32_MAX: nat := 0xFFFF_FFFF
  const MIN_FAILURE_BACKOFF: nat := 5_000
  const MAX_FAILURE_BACKOFF: nat := 300_000
  const COALESCED_FAILURE_TTL: nat := 50
  /** Idle time after which the circuit store forgets an entry. */
  const CIRCUIT_IDLE: nat := 600_000
  /** Life time of an entry of the refresh store. */
  const REFRESH_TTL: nat := MAX_FAILURE_BACKOFF

  datatype Circuit = Circuit(failures: nat, opens: nat, openUntil: Option<nat>)

  const CLOSED := Circuit(0, 0, None)

  function SaturatingInc(n: nat): nat { if n < U32_MAX then n + 1 else n }

  function Shift(exponent: nat): (r: nat)
    ensures r >= 1
  {
    if exponent == 0 then 1 else 2 * Shift(exponent - 1)
  }

  /** Backoff after the n-th failure in a row, without a server's hint. */
  function BaseBackoff(n: nat): (r: nat)
    ensures MIN_FAILURE_BACKOFF <= r <= MAX_FAILURE_BACKOFF
  {
    Min(MIN_FAILURE_BACKOFF * Shift(Min(if n > 0 then n - 1 else 0, 6)), MAX_FAILURE_BACKOFF)
  }

  function Backoff(n: nat, retryAfter: Option<nat>): (r: nat)
    ensures BaseBackoff(n) <= r <= MAX_FAILURE_BACKOFF
  {
    Max(BaseBackoff(n), if retryAfter.Some? then Min(retryAfter.value, MAX_FAILURE_BACKOFF) else 0)
  }

  function OpenFor(opens: nat): (r: nat)
    ensures 30_000 <= r <= MAX_FAILURE_BACKOFF
  {
    Min(30_000 * Shift(Min(opens, 4)), MAX_FAILURE_BACKOFF)
  }

  predicate IsOpen(c: Circuit, now: nat) {
    c.openUntil.Some? && c.openUntil.value > now
  }

  function AfterFailure(c: Circuit, now: nat): Circuit {
    var failures := SaturatingInc(c.failures);
    if failures >= 3 then Circuit(failures, SaturatingInc(c.opens), Some(now + OpenFor(c.opens)))
    else Circuit(failures, c.opens, c.openUntil)
  }

  function Remaining(c: Circuit, now: nat): nat {
    if c.openUntil.Some? && c.openUntil.value >= now then c.openUntil.value - now else COALESCED_FAILURE_TTL
  }

  // Failure histories.

  /** A transient failure: when it was counted, and the server's hint when to come back. */
  datatype Strike = Strike(at: nat, retryAfter: Option<nat>)

  /** How long the circuit alone keeps fetches away after the n-th failure of a streak. */
  function CircuitGap(n: nat): (r: nat)
    ensures r <= MAX_FAILURE_BACKOFF
  {
    if n >= 3 then OpenFor(n - 3) else 0
  }

  /** How long no fetch may start after the n-th failure: backoff, hint and open period. */
  function Gap(n: nat, retryAfter: Option<nat>): nat {
    Max(Backoff(n, retryAfter), CircuitGap(n))
  }

  function BaseGap(n: nat): nat {
    Gap(n, None)
  }

  /** The circuit after a streak of failures. */
  function AfterStreak(streak: seq<Strike>): Circuit {
    if streak == [] then CLOSED else AfterFailure(AfterStreak(streak[..|streak| - 1]), streak[|streak| - 1].at)
  }

  function Saturated(n: int): nat {
    if n < 0 then 0 else Min(n, U32_MAX)
  }

  lemma ShiftValues()
    ensures Shift(0) == 1 && Shift(1) == 2 && Shift(2) == 4 && Shift(3) == 8
    ensures Shift(4) == 16 && Shift(5) == 32 && Shift(6) == 64
  {
    assert Shift(3) == 2 * Shift(2);
    assert Shift(5) == 2 * Shift(4);
  }

  /** From the fifth opening on the period stays at its maximum, so saturation never shortens it. */
  lemma OpenForConstant(opens: nat)
    requires opens >= 4
    ensures OpenFor(opens) == MAX_FAILURE_BACKOFF
  {
    ShiftValues();
  }

  /**
   Over every failure history the failure count is the length of the streak and the open count
   the failures beyond the second, both under 32-bit saturation, and the circuit is open for the
   gap's open period after the last failure.
   */
  lemma {:induction false} StreakState(streak: seq<Strike>)
    ensures var c := AfterStreak(streak);
            var n := |streak|;
            && c.failures == Saturated(n)
            && c.opens == Saturated(n - 2)
            && c.openUntil == (if n >= 3 then Some(streak[n - 1].at + CircuitGap(n)) else None)
  {
    var n := |streak|;
    if n > 0 {
      var before := streak[..n - 1];
      StreakState(before);
      if n >= 3 {
        var opens := AfterStreak(before).opens;
        if n - 3 > U32_MAX {
          OpenForConstant(opens);
          OpenForConstant(n - 3);
        }
      }
    }
  }

  lemma BackoffSaturated(n: nat, retryAfter: Option<nat>)
    ensures Backoff(Saturated(n), retryAfter) == Backoff(n, retryAfter)
  {
  }

  // Spacing.

  /** Consecutive failures of a streak are at least the given gaps apart. */
  ghost predicate Apart(streak: seq<Strike>, gap: nat -> nat) {
    forall i :: 0 <= i && i + 1 < |streak| ==> streak[i].at + gap(i + 1) <= streak[i + 1].at
  }

  /** Consecutive failures of a streak are at least backoff, hint and open period apart. */
  ghost predicate Spaced(streak: seq<Strike>) {
    forall i :: 0 <= i && i + 1 < |streak| ==> streak[i].at + Gap(i + 1, streak[i].retryAfter) <= streak[i + 1].at
  }

  lemma SpacedApart(streak: seq<Strike>)
    requires Spaced(streak)
    ensures Apart(streak, BaseGap) && Apart(streak, CircuitGap)
  {
    forall i | 0 <= i && i + 1 < |streak|
      ensures streak[i].at + BaseGap(i + 1) <= streak[i + 1].at
      ensures streak[i].at + CircuitGap(i + 1) <= streak[i + 1].at
    {
      assert streak[i].at + Gap(i + 1, streak[i].retryAfter) <= streak[i + 1].at;
    }
  }

  lemma ApartAppend(streak: seq<Strike>, strike: Strike, gap: nat -> nat)
    requires Apart(streak, gap)
    requires streak != [] ==> streak[|streak| - 1].at + gap(|streak|) <= strike.at
    ensures Apart(streak + [strike], gap)
  {
    var more := streak + [strike];
    forall i | 0 <= i && i + 1 < |more| ensures more[i].at + gap(i + 1) <= more[i + 1].at {
      if i + 1 < |streak| {
        assert streak[i].at + gap(i + 1) <= streak[i + 1].at;
      }
    }
  }

  lemma SpacedAppend(streak: seq<Strike>, strike: Strike)
    requires Spaced(streak)
    requires var n := |streak|; n > 0 ==> streak[n - 1].at + Gap(n, streak[n - 1].retryAfter) <= strike.at
    ensures Spaced(streak + [strike])
  {
    var more := streak + [strike];
    forall i | 0 <= i && i + 1 < |more| ensures more[i].at + Gap(i + 1, more[i].retryAfter) <= more[i + 1].at {
      if i + 1 < |streak| {
        assert streak[i].at + Gap(i + 1, streak[i].retryAfter) <= streak[i + 1].at;
      }
    }
  }

  lemma AfterStreakAppend(streak: seq<Strike>, strike: Strike)
    ensures AfterStreak(streak + [strike]) == AfterFailure(AfterStreak(streak), strike.at)
  {
    assert (streak + [strike])[..|streak|] == streak;
  }

  /** Total waiting time over a streak's first gaps. */
  function GapSum(gap: nat -> nat, n: nat): nat {
    if n == 0 then 0 else GapSum(gap, n - 1) + gap(n)
  }

  lemma {:induction false} ApartSum(streak: seq<Strike>, gap: nat -> nat, n: nat)
    requires Apart(streak, gap) && n < |streak|
    ensures streak[0].at + GapSum(gap, n) <= streak[n].at
  {
    if n > 0 {
      ApartSum(streak, gap, n - 1);
      assert streak[n - 1].at + gap(n - 1 + 1) <= streak[n - 1 + 1].at;
    }
  }

  lemma {:induction false} GapSumTail(gap: nat -> nat, j: nat)
    requires forall n: nat :: n >= 7 ==> gap(n) == MAX_FAILURE_BACKOFF
    ensures GapSum(gap, 6 + j) == GapSum(gap, 6) + 300_000 * j
  {
    if j > 0 {
      GapSumTail(gap, j - 1);
      assert gap(6 + j) == MAX_FAILURE_BACKOFF;
    }
  }

  lemma SixGaps(gap: nat -> nat)
    ensures GapSum(gap, 6) == gap(1) + gap(2) + gap(3) + gap(4) + gap(5) + gap(6)
  {
    assert GapSum(gap, 2) == gap(1) + gap(2);
    assert GapSum(gap, 4) == GapSum(gap, 2) + gap(3) + gap(4);
  }

  lemma GapValues()
    ensures CircuitGap(3) == 30_000 && CircuitGap(4) == 60_000 && CircuitGap(5) == 120_000 && CircuitGap(6) == 240_000
    ensures BaseGap(1) == 5_000 && BaseGap(2) == 10_000
    ensures forall n: nat :: n >= 3 ==> BaseGap(n) == CircuitGap(n)
    ensures forall n: nat :: n >= 7 ==> CircuitGap(n) == MAX_FAILURE_BACKOFF
  {
    ShiftValues();
    assert BaseBackoff(3) == 20_000 && BaseBackoff(4) == 40_000 && BaseBackoff(5) == 80_000 && BaseBackoff(6) == 160_000;
    forall n: nat | n >= 7 ensures CircuitGap(n) == MAX_FAILURE_BACKOFF {
      OpenForConstant(n - 3);
    }
  }

  /** The (7+j)-th failure of a spaced streak comes at least 465+300j seconds after the first. */
  lemma StreakDuration(streak: seq<Strike>, j: nat)
    requires Apart(streak, BaseGap) && 6 + j < |streak|
    ensures streak[6 + j].at - streak[0].at >= 465_000 + 300_000 * j
  {
    GapValues();
    SixGaps(BaseGap);
    ApartSum(streak, BaseGap, 6 + j);
    GapSumTail(BaseGap, j);
  }

  /** With the circuit alone it comes at least 450+300j seconds after the first. */
  lemma CircuitDuration(streak: seq<Strike>, j: nat)
    requires Apart(streak, CircuitGap) && 6 + j < |streak|
    ensures streak[6 + j].at - streak[0].at >= 450_000 + 300_000 * j
  {
    GapValues();
    SixGaps(CircuitGap);
    ApartSum(streak, CircuitGap, 6 + j);
    GapSumTail(CircuitGap, j);
  }

  /** The backoff outlasts the circuit's open period exactly for the first two failures and for long hints. */
  lemma BackoffOutlastsCircuit(n: nat, retryAfter: Option<nat>)
    requires n > 0
    ensures CircuitGap(n) < Backoff(n, retryAfter) <==>
            n < 3 || (retryAfter.Some? && OpenFor(n - 3) < Min(retryAfter.value, MAX_FAILURE_BACKOFF))
  {
    GapValues();
    if n >= 3 {
      assert BaseGap(n) == CircuitGap(n);
    }
  }

  // The same in numbers.

  /** The exponential backoff after the n-th failure, in milliseconds. */
  function Exponential(n: nat): nat {
    if n <= 1 then 5_000
    else if n == 2 then 10_000
    else if n == 3 then 20_000
    else if n == 4 then 40_000
    else if n == 5 then 80_000
    else if n == 6 then 160_000
    else 300_000
  }

  /** A hint counts up to five minutes, for every failure, and only where it is the longer one. */
  lemma BackoffExact(n: nat, retryAfter: Option<nat>)
    ensures retryAfter.None? ==> Backoff(n, retryAfter) == Exponential(n)
    ensures retryAfter.Some? && Min(retryAfter.value, 300_000) <= Exponential(n) ==>
              Backoff(n, retryAfter) == Exponential(n)
    ensures retryAfter.Some? && Min(retryAfter.value, 300_000) > Exponential(n) ==>
              Backoff(n, retryAfter) == Min(retryAfter.value, 300_000)
  {
    ShiftValues();
  }

  /** The open period after the n-th failure: none before the third, then from half a minute to five. */
  lemma CircuitGapExact(n: nat)
    ensures CircuitGap(n) ==
            if n <= 2 then 0
            else if n == 3 then 30_000
            else if n == 4 then 60_000
            else if n == 5 then 120_000
            else if n == 6 then 240_000
            else 300_000
  {
    GapValues();
  }

  /** The whole gap covers the exponential backoff, the hint up to five minutes, and the open period. */
  lemma GapCovers(n: nat, retryAfter: Option<nat>)
    ensures Gap(n, retryAfter) >= Exponential(n) && Gap(n, retryAfter) >= CircuitGap(n)
    ensures retryAfter.Some? ==> Gap(n, retryAfter) >= Min(retryAfter.value, 300_000)
  {
    BackoffExact(n, retryAfter);
  }
}
