/** Admission of origins not seen lately: a bounded map of origins to the time they were admitted. */
module Origins {
  import opened Representations

  const ORIGIN_WINDOW: nat := 60_000

  datatype OriginLimits = OriginLimits(newOriginsPerMinute: nat, stateEntries: nat)

  function Bound(limits: OriginLimits): nat {
    Min(limits.newOriginsPerMinute, limits.stateEntries)
  }

  /** Drops origins seen a minute ago or longer; a reading taken earlier counts as age 0. */
  function Retained(seen: map<string, nat>, now: nat): map<string, nat> {
    map o | o in seen && now - seen[o] < ORIGIN_WINDOW :: seen[o]
  }

  predicate Admits(limits: OriginLimits, seen: map<string, nat>, origin: string, now: nat) {
    var kept := Retained(seen, now);
    origin in kept || (|kept| < limits.newOriginsPerMinute && |kept| < limits.stateEntries)
  }

  function AfterAsk(limits: OriginLimits, seen: map<string, nat>, origin: string, now: nat): map<string, nat> {
    var kept := Retained(seen, now);
    if Admits(limits, seen, origin, now) then kept[origin := now] else kept
  }

  // Histories of questions, in the order in which the lock was taken.

  datatype Ask = Ask(origin: string, now: nat)

  function SeenAfter(limits: OriginLimits, asks: seq<Ask>): map<string, nat> {
    if asks == [] then map[]
    else
      var n := |asks| - 1;
      AfterAsk(limits, SeenAfter(limits, asks[..n]), asks[n].origin, asks[n].now)
  }

  function Admitted(limits: OriginLimits, asks: seq<Ask>): seq<Ask> {
    if asks == [] then []
    else
      var n := |asks| - 1;
      var before := Admitted(limits, asks[..n]);
      if Admits(limits, SeenAfter(limits, asks[..n]), asks[n].origin, asks[n].now) then before + [asks[n]] else before
  }

  /** The origins asked for in the last minute; a reading taken earlier than theirs counts them all. */
  ghost function SeenLately(seen: map<string, nat>, now: nat): set<string> {
    set o | o in seen && now - seen[o] < 60_000
  }

  /** An origin is admitted exactly when it was seen in the last minute or fewer than both limits were. */
  lemma AdmitsIff(limits: OriginLimits, seen: map<string, nat>, origin: string, now: nat)
    ensures var lately := SeenLately(seen, now);
            && (Admits(limits, seen, origin, now) <==>
                  origin in lately || (|lately| < limits.newOriginsPerMinute && |lately| < limits.stateEntries))
            && AfterAsk(limits, seen, origin, now).Keys ==
               if Admits(limits, seen, origin, now) then lately + {origin} else lately
  {
    assert Retained(seen, now).Keys == SeenLately(seen, now);
    assert |Retained(seen, now)| == |Retained(seen, now).Keys|;
  }

  lemma RetainedSize(seen: map<string, nat>, now: nat)
    ensures |Retained(seen, now)| <= |seen|
  {
    SubsetSize(Retained(seen, now).Keys, seen.Keys);
  }

  lemma {:induction false} SubsetSize<T>(a: set<T>, b: set<T>)
    requires a <= b
    ensures |a| <= |b|
  {
    if a != {} {
      var x :| x in a;
      SubsetSize(a - {x}, b - {x});
    }
  }

  /** The map never outgrows the bound, in whatever order the clock was read. */
  lemma {:induction false} SeenBounded(limits: OriginLimits, asks: seq<Ask>)
    ensures |SeenAfter(limits, asks)| <= Bound(limits)
  {
    if asks != [] {
      var n := |asks| - 1;
      var before := SeenAfter(limits, asks[..n]);
      SeenBounded(limits, asks[..n]);
      RetainedSize(before, asks[n].now);
      var kept := Retained(before, asks[n].now);
      if asks[n].origin in kept {
        assert kept[asks[n].origin := asks[n].now].Keys == kept.Keys;
      } else {
        assert kept[asks[n].origin := asks[n].now].Keys == kept.Keys + {asks[n].origin};
      }
    }
  }

  // The rate: how many distinct origins a rolling minute admits.

  /** Distinct origins admitted in the minute that starts at `start`. */
  ghost function AdmittedIn(limits: OriginLimits, asks: seq<Ask>, start: nat): set<string> {
    set a | a in Admitted(limits, asks) && start <= a.now < start + ORIGIN_WINDOW :: a.origin
  }

  predicate AdmittedAt(limits: OriginLimits, asks: seq<Ask>, i: nat)
    requires i < |asks|
  {
    Admits(limits, SeenAfter(limits, asks[..i]), asks[i].origin, asks[i].now)
  }

  lemma AdmittedAtPrefix(limits: OriginLimits, asks: seq<Ask>, n: nat, i: nat)
    requires i < n <= |asks|
    ensures AdmittedAt(limits, asks[..n], i) <==> AdmittedAt(limits, asks, i)
  {
    assert asks[..n][..i] == asks[..i];
  }

  lemma {:induction false} AdmittedSomewhere(limits: OriginLimits, asks: seq<Ask>, a: Ask) returns (i: nat)
    requires a in Admitted(limits, asks)
    ensures i < |asks| && asks[i] == a && AdmittedAt(limits, asks, i)
  {
    var n := |asks| - 1;
    if a in Admitted(limits, asks[..n]) {
      i := AdmittedSomewhere(limits, asks[..n], a);
      AdmittedAtPrefix(limits, asks, n, i);
    } else {
      i := n;
    }
  }

  lemma {:induction false} AdmittedIsListed(limits: OriginLimits, asks: seq<Ask>, i: nat)
    requires i < |asks| && AdmittedAt(limits, asks, i)
    ensures asks[i] in Admitted(limits, asks)
  {
    var n := |asks| - 1;
    if i < n {
      AdmittedAtPrefix(limits, asks, n, i);
      AdmittedIsListed(limits, asks[..n], i);
    }
  }

  /**
   The reading at `j` makes the map forget what the reading at `m` recorded, although the question
   at `k`, no earlier, falls in one minute with the one at `i`, no later.
   */
  predicate Forgets(asks: seq<Ask>, i: nat, m: nat, j: nat, k: nat) {
    && i <= m < j <= k < |asks|
    && asks[k].now - asks[i].now < ORIGIN_WINDOW && asks[i].now - asks[k].now < ORIGIN_WINDOW
    && asks[j].now - asks[m].now >= ORIGIN_WINDOW
  }

  ghost predicate NeverForgets(asks: seq<Ask>) {
    forall i, m, j, k :: !Forgets(asks, i, m, j, k)
  }

  lemma NeverForgetsPrefix(asks: seq<Ask>, n: nat)
    requires NeverForgets(asks) && n <= |asks|
    ensures NeverForgets(asks[..n])
  {
    forall i: nat, m: nat, j: nat, k: nat ensures !Forgets(asks[..n], i, m, j, k) {
      assert !Forgets(asks, i, m, j, k);
    }
  }

  /** An origin is remembered, with a reading since its admission, as long as no reading forgets it. */
  lemma {:induction false} StillSeen(limits: OriginLimits, asks: seq<Ask>, i: nat, k: nat)
    requires i <= k < |asks| && AdmittedAt(limits, asks, i)
    requires forall m, j :: i <= m < j <= k ==> asks[j].now - asks[m].now < ORIGIN_WINDOW
    ensures var seen := SeenAfter(limits, asks[..k + 1]);
            && asks[i].origin in seen
            && exists m :: i <= m <= k && seen[asks[i].origin] == asks[m].now
  {
    assert asks[..k + 1][..k] == asks[..k];
    if i == k {
      assert SeenAfter(limits, asks[..k + 1])[asks[i].origin] == asks[i].now;
    } else {
      StillSeen(limits, asks, i, k - 1);
      assert asks[..k - 1 + 1] == asks[..k];
      var before, seen := SeenAfter(limits, asks[..k]), SeenAfter(limits, asks[..k + 1]);
      var m :| i <= m <= k - 1 && before[asks[i].origin] == asks[m].now;
      assert seen[asks[i].origin] == asks[m].now || seen[asks[i].origin] == asks[k].now;
    }
  }

  lemma WindowIsSeen(limits: OriginLimits, asks: seq<Ask>, start: nat)
    requires NeverForgets(asks) && asks != [] && start <= asks[|asks| - 1].now < start + ORIGIN_WINDOW
    ensures AdmittedIn(limits, asks, start) <= SeenAfter(limits, asks).Keys
  {
    var n := |asks| - 1;
    forall a | a in Admitted(limits, asks) && start <= a.now < start + ORIGIN_WINDOW
      ensures a.origin in SeenAfter(limits, asks)
    {
      var i := AdmittedSomewhere(limits, asks, a);
      forall m, j | i <= m < j <= n ensures asks[j].now - asks[m].now < ORIGIN_WINDOW {
        assert !Forgets(asks, i, m, j, n);
      }
      StillSeen(limits, asks, i, n);
      assert asks[..n + 1] == asks;
    }
  }

  /** While nothing is forgotten, every rolling minute admits at most the bound's number of origins. */
  lemma {:induction false} AdmittedPerMinute(limits: OriginLimits, asks: seq<Ask>, start: nat)
    requires NeverForgets(asks)
    ensures |AdmittedIn(limits, asks, start)| <= Bound(limits)
  {
    if asks == [] {
      assert AdmittedIn(limits, asks, start) == {};
    } else {
      var n := |asks| - 1;
      if start <= asks[n].now < start + ORIGIN_WINDOW {
        WindowIsSeen(limits, asks, start);
        SubsetSize(AdmittedIn(limits, asks, start), SeenAfter(limits, asks).Keys);
        SeenBounded(limits, asks);
      } else {
        NeverForgetsPrefix(asks, n);
        AdmittedPerMinute(limits, asks[..n], start);
        assert AdmittedIn(limits, asks, start) == AdmittedIn(limits, asks[..n], start);
      }
    }
  }

  ghost predicate InLockOrder(asks: seq<Ask>) {
    forall i, j :: 0 <= i < j < |asks| ==> asks[i].now <= asks[j].now
  }

  /** Clock readings in lock order never forget. */
  lemma LockOrderNeverForgets(asks: seq<Ask>)
    requires InLockOrder(asks)
    ensures NeverForgets(asks)
  {
    forall i: nat, m: nat, j: nat, k: nat ensures !Forgets(asks, i, m, j, k) {
      if i <= m < j <= k < |asks| {
        assert i == m || asks[i].now <= asks[m].now;
        assert j == k || asks[j].now <= asks[k].now;
      }
    }
  }

  // The converse: readings that forget break a bound of one.

  const ONE := OriginLimits(1, 1)

  /** The same readings, asked for one origin up to `m` and for another after it. */
  function TwoOrigins(asks: seq<Ask>, m: nat, a: string, b: string): (r: seq<Ask>)
    ensures |r| == |asks|
    ensures forall l :: 0 <= l < |asks| ==> r[l] == Ask(if l <= m then a else b, asks[l].now)
  {
    seq(|asks|, l requires 0 <= l < |asks| => Ask(if l <= m then a else b, asks[l].now))
  }

  lemma OneKey(seen: map<string, nat>, origin: string, now: nat)
    requires seen.Keys <= {origin}
    ensures Admits(ONE, seen, origin, now) && AfterAsk(ONE, seen, origin, now) == map[origin := now]
  {
    var kept := Retained(seen, now);
    assert kept.Keys <= {origin};
    assert origin !in kept ==> kept == map[];
  }

  lemma Refused(a: string, b: string, then_: nat, now: nat)
    requires a != b && now - then_ < ORIGIN_WINDOW
    ensures AfterAsk(ONE, map[a := then_], b, now) == map[a := then_]
  {
    assert Retained(map[a := then_], now) == map[a := then_];
  }

  lemma Replaced(a: string, b: string, then_: nat, now: nat)
    requires a != b && now - then_ >= ORIGIN_WINDOW
    ensures Admits(ONE, map[a := then_], b, now) && AfterAsk(ONE, map[a := then_], b, now) == map[b := now]
  {
    assert Retained(map[a := then_], now) == map[];
  }

  lemma {:induction false} FirstOrigin(asks: seq<Ask>, m: nat, a: string, b: string, l: nat)
    requires l <= m < |asks|
    ensures var r := TwoOrigins(asks, m, a, b);
            AdmittedAt(ONE, r, l) && SeenAfter(ONE, r[..l + 1]) == map[a := asks[l].now]
  {
    var r := TwoOrigins(asks, m, a, b);
    assert r[..l + 1][..l] == r[..l];
    if l > 0 {
      FirstOrigin(asks, m, a, b, l - 1);
      assert r[..l - 1 + 1] == r[..l];
    }
    OneKey(SeenAfter(ONE, r[..l]), a, asks[l].now);
  }

  /** One more question for the second origin. */
  lemma SecondAsked(seen: map<string, nat>, a: string, b: string, then_: nat, now: nat)
    requires a != b && (seen.Keys <= {b} || seen == map[a := then_])
    ensures var next := AfterAsk(ONE, seen, b, now);
            next.Keys <= {b} || (next == seen == map[a := then_] && now - then_ < ORIGIN_WINDOW)
  {
    if seen.Keys <= {b} {
      OneKey(seen, b, now);
    } else if now - then_ < ORIGIN_WINDOW {
      Refused(a, b, then_, now);
    } else {
      Replaced(a, b, then_, now);
    }
  }

  lemma SeenStep(asks: seq<Ask>, m: nat, a: string, b: string, l: nat)
    requires m < l < |asks|
    ensures var r := TwoOrigins(asks, m, a, b);
            SeenAfter(ONE, r[..l + 1]) == AfterAsk(ONE, SeenAfter(ONE, r[..l]), b, asks[l].now)
  {
    var r := TwoOrigins(asks, m, a, b);
    assert r[..l + 1][..l] == r[..l];
  }

  /** After `m` the map holds the first origin until a reading forgets it, and then the second. */
  lemma {:induction false} SecondOrigin(asks: seq<Ask>, m: nat, a: string, b: string, l: nat)
    requires m < l <= |asks| && a != b
    ensures var seen := SeenAfter(ONE, TwoOrigins(asks, m, a, b)[..l]);
            || (seen.Keys <= {b})
            || (seen == map[a := asks[m].now] && forall j :: m < j < l ==> asks[j].now - asks[m].now < ORIGIN_WINDOW)
  {
    if l == m + 1 {
      FirstOrigin(asks, m, a, b, m);
    } else {
      SecondOrigin(asks, m, a, b, l - 1);
      SeenStep(asks, m, a, b, l - 1);
      SecondAsked(SeenAfter(ONE, TwoOrigins(asks, m, a, b)[..l - 1]), a, b, asks[m].now, asks[l - 1].now);
    }
  }

  lemma SecondAdmitted(asks: seq<Ask>, m: nat, j: nat, k: nat, a: string, b: string)
    requires m < j <= k < |asks| && a != b && asks[j].now - asks[m].now >= ORIGIN_WINDOW
    ensures AdmittedAt(ONE, TwoOrigins(asks, m, a, b), k)
  {
    var seen := SeenAfter(ONE, TwoOrigins(asks, m, a, b)[..k]);
    SecondOrigin(asks, m, a, b, k);
    if seen.Keys <= {b} {
      OneKey(seen, b, asks[k].now);
    } else {
      assert k == j;
      Replaced(a, b, asks[m].now, asks[k].now);
    }
  }

  /** Whenever the readings forget, two origins asked for at these readings exceed a bound of one. */
  lemma ForgettingBreaksBound(asks: seq<Ask>, i: nat, m: nat, j: nat, k: nat, a: string, b: string)
    requires Forgets(asks, i, m, j, k) && a != b
    ensures var start := Min(asks[i].now, asks[k].now);
            |AdmittedIn(ONE, TwoOrigins(asks, m, a, b), start)| > Bound(ONE)
  {
    var r, start := TwoOrigins(asks, m, a, b), Min(asks[i].now, asks[k].now);
    FirstOrigin(asks, m, a, b, i);
    SecondAdmitted(asks, m, j, k, a, b);
    AdmittedIsListed(ONE, r, i);
    AdmittedIsListed(ONE, r, k);
    assert r[i].origin == a && r[k].origin == b;
    SubsetSize({a, b}, AdmittedIn(ONE, r, start));
  }

  /** Two histories with the same clock readings. */
  predicate SameReadings(asks: seq<Ask>, others: seq<Ask>) {
    |asks| == |others| && forall i :: 0 <= i < |asks| ==> asks[i].now == others[i].now
  }

  ghost predicate BoundKept(asks: seq<Ask>) {
    forall others, limits, start ::
      SameReadings(asks, others) ==> |AdmittedIn(limits, others, start)| <= Bound(limits)
  }

  lemma ForgetsAlike(asks: seq<Ask>, others: seq<Ask>)
    requires SameReadings(asks, others) && NeverForgets(asks)
    ensures NeverForgets(others)
  {
    forall i: nat, m: nat, j: nat, k: nat ensures !Forgets(others, i, m, j, k) {
      assert !Forgets(asks, i, m, j, k);
    }
  }

  /**
   The exact condition on clock readings: whatever is asked for at them and whatever the limits,
   every rolling minute admits at most the bound's number of distinct origins, if and only if they
   never forget.
   */
  lemma BoundIff(asks: seq<Ask>)
    ensures BoundKept(asks) <==> NeverForgets(asks)
  {
    if NeverForgets(asks) {
      forall others, limits, start | SameReadings(asks, others)
        ensures |AdmittedIn(limits, others, start)| <= Bound(limits)
      {
        ForgetsAlike(asks, others);
        AdmittedPerMinute(limits, others, start);
      }
    } else {
      var i, m, j, k :| Forgets(asks, i, m, j, k);
      ForgettingBreaksBound(asks, i, m, j, k, "a", "b");
      assert SameReadings(asks, TwoOrigins(asks, m, "a", "b"));
    }
  }

  /** A reading taken before the lock but used after a later one breaks the bound. */
  lemma OutOfOrderBreaksBound(origin: string)
    ensures !BoundKept([Ask(origin, 0), Ask(origin, 60_000), Ask(origin, 59_999)])
  {
    var asks := [Ask(origin, 0), Ask(origin, 60_000), Ask(origin, 59_999)];
    assert Forgets(asks, 0, 0, 1, 2);
    BoundIff(asks);
  }
}
