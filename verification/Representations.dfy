/**
 Cached representations: how a response becomes one, how long it is fresh, and how long it may
 be served after an error. Times are milliseconds. The HTTP cache library is foreign: a policy is
 given by its answers.
 */
module Representations {
  import opened Wrappers
  import opened Fetch
  import opened Resource

  const MAX_FRESHNESS: nat := 24 * 60 * 60 * 1000

  /** A cache policy: storable or not, fresh or not at a time, time to live at a time. */
  datatype CachePolicy = CachePolicy(storable: bool, freshAt: int -> bool, timeToLive: int -> nat)

  /** A Cache-Control directive; a value is absent when it does not read as a 64-bit number. */
  datatype Directive =
    | MustRevalidate
    | NoStore
    | StaleIfError(seconds: Option<nat>)
    | Freshness(seconds: Option<nat>)
    | OtherDirective

  datatype Headers = Headers(directives: seq<Directive>, validExpires: bool)

  /**
   A full response, or one that says the previous representation still holds. The policy of a full
   response is a function of its headers, which are completed before it is asked.
   */
  datatype Response =
    | Full(headers: Headers, body: Body, policy: Headers -> CachePolicy)
    | NotModified(headers: Headers, revalidated: Option<CachePolicy>)

  /** `refresh` numbers the refresh that built the representation. */
  datatype Representation = Representation(
    resource: ParsedResource, policy: CachePolicy, storedAt: int, freshFor: nat,
    staleIfError: Option<nat>, refresh: nat)

  function Min(a: nat, b: nat): nat { if a <= b then a else b }

  function Max(a: nat, b: nat): nat { if a <= b then b else a }

  // Header rules.

  function FirstStale(ds: seq<Directive>): (r: Option<nat>)
    ensures r.Some? <==> exists i :: 0 <= i < |ds| && ds[i].StaleIfError? && ds[i].seconds.Some?
  {
    if ds == [] then None
    else if ds[0].StaleIfError? && ds[0].seconds.Some? then ds[0].seconds
    else
      assert ds == [ds[0]] + ds[1..];
      FirstStale(ds[1..])
  }

  /** The stale window a response gives: none under `must-revalidate`, at most a day otherwise. */
  function StaleWindow(headers: Headers): (r: Option<nat>)
    ensures r.Some? ==> r.value <= MAX_FRESHNESS
    ensures MustRevalidate in headers.directives ==> r.None?
  {
    if MustRevalidate in headers.directives then None
    else match FirstStale(headers.directives)
      case None => None
      case Some(seconds) => Some(1000 * Min(seconds, 24 * 60 * 60))
  }

  predicate HasFreshness(headers: Headers) {
    exists i :: 0 <= i < |headers.directives| &&
      headers.directives[i].Freshness? && headers.directives[i].seconds.Some?
  }

  function WithDefaultFreshness(headers: Headers): (r: Headers)
    ensures NoStore in headers.directives || HasFreshness(r) || r.validExpires
    ensures r == headers || r.directives == headers.directives + [Freshness(Some(300))]
  {
    if NoStore !in headers.directives && !HasFreshness(headers) && !headers.validExpires then
      var ds := headers.directives + [Freshness(Some(300))];
      assert ds[|ds| - 1].Freshness?;
      headers.(directives := ds)
    else headers
  }

  /** Five minutes are added exactly where nothing is said about freshness or storing. */
  lemma DefaultFreshnessIff(headers: Headers)
    ensures var silent := !headers.validExpires && forall d :: d in headers.directives ==>
                            d != NoStore && !(d.Freshness? && d.seconds.Some?);
            WithDefaultFreshness(headers) ==
            if silent then headers.(directives := headers.directives + [Freshness(Some(300))]) else headers
  {
    if d :| d in headers.directives && d.Freshness? && d.seconds.Some? {
      var i :| 0 <= i < |headers.directives| && headers.directives[i] == d;
    }
  }

  lemma {:induction false} FirstStaleExact(ds: seq<Directive>, i: nat)
    requires i < |ds| && ds[i].StaleIfError? && ds[i].seconds.Some?
    requires forall j :: 0 <= j < i ==> !(ds[j].StaleIfError? && ds[j].seconds.Some?)
    ensures FirstStale(ds) == ds[i].seconds
  {
    if i > 0 {
      FirstStaleExact(ds[1..], i - 1);
    }
  }

  /** Without `must-revalidate` the first readable `stale-if-error` gives the window, at most a day. */
  lemma StaleWindowExact(headers: Headers, i: nat)
    requires i < |headers.directives| && MustRevalidate !in headers.directives
    requires headers.directives[i].StaleIfError? && headers.directives[i].seconds.Some?
    requires forall j :: 0 <= j < i ==> !(headers.directives[j].StaleIfError? && headers.directives[j].seconds.Some?)
    ensures var seconds := headers.directives[i].seconds.value;
            StaleWindow(headers) == Some(if seconds <= 86_400 then 1000 * seconds else 86_400_000)
  {
    FirstStaleExact(headers.directives, i);
  }

  /** The local freshness default never changes the stale window. */
  lemma DefaultFreshnessKeepsWindow(headers: Headers)
    ensures StaleWindow(WithDefaultFreshness(headers)) == StaleWindow(headers)
  {
    FirstStaleAppend(headers.directives);
  }

  lemma {:induction false} FirstStaleAppend(ds: seq<Directive>)
    ensures FirstStale(ds + [Freshness(Some(300))]) == FirstStale(ds)
  {
    var one := [Freshness(Some(300))];
    if ds == [] {
      assert ds + one == one && one[1..] == [];
    } else {
      assert (ds + one)[1..] == ds[1..] + one;
      FirstStaleAppend(ds[1..]);
    }
  }

  // Freshness and stale answers.

  /** Fresh by its policy, and stored less than a day ago (a clock set back counts as age 0). */
  predicate FreshAt(rep: Representation, now: int) {
    now - rep.storedAt < MAX_FRESHNESS && rep.policy.freshAt(now)
  }

  predicate StaleAllowed(rep: Representation, now: int) {
    && rep.staleIfError.Some?
    && 0 <= now - rep.storedAt <= rep.freshFor + rep.staleIfError.value
  }

  /** The bounds every representation is built with. */
  predicate BoundedWindow(rep: Representation) {
    rep.freshFor <= MAX_FRESHNESS && (rep.staleIfError.Some? ==> rep.staleIfError.value <= MAX_FRESHNESS)
  }

  /** The representation a response gives, on top of the previous one. */
  function FromResponse(
    lib: Library, key: ResourceKey, previous: Option<Representation>, response: Response, now: int, refresh: nat)
    : (r: Result<Representation, FetchError>)
    ensures r.Ok? && (previous.Some? ==> BoundedWindow(previous.value)) ==> BoundedWindow(r.value)
    ensures r.Ok? && (previous.Some? ==> FitsKey(lib, key, previous.value.resource)) ==>
              FitsKey(lib, key, r.value.resource)
    ensures r.Ok? ==> r.value.refresh == refresh && r.value.storedAt == now
    ensures r.Err? ==> r.error == Plain(InvalidResource)
  {
    match response
    case NotModified(headers, revalidated) =>
      if previous.None? || revalidated.None? then Err(Plain(InvalidResource))
      else
        var window := StaleWindow(headers);
        Ok(Representation(
             previous.value.resource, revalidated.value, now,
             Min(revalidated.value.timeToLive(now), MAX_FRESHNESS),
             if window.Some? then window else previous.value.staleIfError, refresh))
    case Full(headers, body, policy) =>
      match ParseResource(lib, key, body)
      case Err(error) => Err(error)
      case Ok(resource) =>
        var completed := WithDefaultFreshness(headers);
        Ok(Representation(
             resource, policy(completed), now, Min(policy(completed).timeToLive(now), MAX_FRESHNESS),
             StaleWindow(completed), refresh))
  }

  // Chains of revalidations.

  /** One link: the response, and the wall clock and refresh number it was received with. */
  datatype Link = Link(response: Response, now: int, refresh: nat)

  /** `reps` follows from a full response and then revalidations, each on top of the one before. */
  ghost predicate IsChain(lib: Library, key: ResourceKey, links: seq<Link>, reps: seq<Representation>) {
    && |links| == |reps| > 0
    && links[0].response.Full?
    && (forall i :: 0 < i < |links| ==> links[i].response.NotModified?)
    && FromResponse(lib, key, None, links[0].response, links[0].now, links[0].refresh) == Ok(reps[0])
    && forall i :: 0 < i < |links| ==>
         FromResponse(lib, key, Some(reps[i - 1]), links[i].response, links[i].now, links[i].refresh) == Ok(reps[i])
  }

  /** The window given by the latest response that gave one. */
  function LatestWindow(links: seq<Link>): (r: Option<nat>)
    ensures r.None? <==> forall i :: 0 <= i < |links| ==> StaleWindow(links[i].response.headers).None?
    ensures r.Some? ==> exists i :: 0 <= i < |links| && r == StaleWindow(links[i].response.headers) &&
                          forall j :: i < j < |links| ==> StaleWindow(links[j].response.headers).None?
  {
    if links == [] then None
    else
      var n := |links| - 1;
      var last := StaleWindow(links[n].response.headers);
      assert forall i :: 0 <= i < n ==> links[..n][i] == links[i];
      if last.Some? then last else LatestWindow(links[..n])
  }

  lemma FullLink(lib: Library, key: ResourceKey, link: Link, rep: Representation)
    requires link.response.Full?
    requires FromResponse(lib, key, None, link.response, link.now, link.refresh) == Ok(rep)
    ensures rep.staleIfError == StaleWindow(link.response.headers) && BoundedWindow(rep)
  {
    DefaultFreshnessKeepsWindow(link.response.headers);
  }

  lemma RevalidationLink(
    lib: Library, key: ResourceKey, previous: Representation, link: Link, rep: Representation)
    requires link.response.NotModified?
    requires FromResponse(lib, key, Some(previous), link.response, link.now, link.refresh) == Ok(rep)
    ensures rep.resource == previous.resource
    ensures BoundedWindow(previous) ==> BoundedWindow(rep)
    ensures var window := StaleWindow(link.response.headers);
            rep.staleIfError == if window.Some? then window else previous.staleIfError
  {
  }

  lemma ChainPrefix(lib: Library, key: ResourceKey, links: seq<Link>, reps: seq<Representation>, n: nat)
    requires IsChain(lib, key, links, reps) && 0 < n <= |links|
    ensures IsChain(lib, key, links[..n], reps[..n])
  {
    var ls, rs := links[..n], reps[..n];
    forall i | 0 < i < n
      ensures FromResponse(lib, key, Some(rs[i - 1]), ls[i].response, ls[i].now, ls[i].refresh) == Ok(rs[i])
    {
      assert rs[i - 1] == reps[i - 1] && ls[i] == links[i] && rs[i] == reps[i];
    }
  }

  lemma LatestWindowStep(links: seq<Link>, n: nat)
    requires n + 1 == |links|
    ensures var last := StaleWindow(links[n].response.headers);
            LatestWindow(links) == if last.Some? then last else LatestWindow(links[..n])
  {
  }

  /**
   After any chain the resource is the one of the full response, and the stale window is the
   latest that any response in the chain gave, at most a day.
   */
  lemma {:induction false} ChainWindow(lib: Library, key: ResourceKey, links: seq<Link>, reps: seq<Representation>)
    requires IsChain(lib, key, links, reps)
    ensures var last := reps[|reps| - 1];
            && last.staleIfError == LatestWindow(links)
            && last.resource == reps[0].resource
            && BoundedWindow(last)
    decreases |links|
  {
    var n := |links| - 1;
    LatestWindowStep(links, n);
    if n == 0 {
      FullLink(lib, key, links[0], reps[0]);
      assert links[..0] == [];
    } else {
      ChainPrefix(lib, key, links, reps, n);
      ChainWindow(lib, key, links[..n], reps[..n]);
      RevalidationLink(lib, key, reps[n - 1], links[n], reps[n]);
    }
  }

  /** The policy that a response itself carries; a 304 that does not revalidate carries none. */
  function CarriedPolicy(response: Response): Option<CachePolicy> {
    match response
    case Full(headers, _, policy) => Some(policy(WithDefaultFreshness(headers)))
    case NotModified(_, revalidated) => revalidated
  }

  lemma LinkCarries(lib: Library, key: ResourceKey, previous: Option<Representation>, link: Link, rep: Representation)
    requires FromResponse(lib, key, previous, link.response, link.now, link.refresh) == Ok(rep)
    ensures CarriedPolicy(link.response) == Some(rep.policy)
    ensures rep.storedAt == link.now && rep.refresh == link.refresh
    ensures rep.freshFor == Min(rep.policy.timeToLive(link.now), 86_400_000)
  {
  }

  /**
   After any chain the last response alone decides about freshness: the representation is fresh
   while it is less than a day old and that response's policy says so, and it may be served stale
   exactly from then until its time to live, at most a day, and the latest window are over.
   */
  lemma ChainServing(lib: Library, key: ResourceKey, links: seq<Link>, reps: seq<Representation>, t: int)
    requires IsChain(lib, key, links, reps)
    ensures var last, link := reps[|reps| - 1], links[|links| - 1];
            && CarriedPolicy(link.response).Some?
            && var policy, window := CarriedPolicy(link.response).value, LatestWindow(links);
            && last.policy == policy && last.storedAt == link.now && last.refresh == link.refresh
            && (FreshAt(last, t) <==> t - link.now < 86_400_000 && policy.freshAt(t))
            && (StaleAllowed(last, t) <==>
                  window.Some? && 0 <= t - link.now <= Min(policy.timeToLive(link.now), 86_400_000) + window.value)
  {
    var n := |links| - 1;
    ChainWindow(lib, key, links, reps);
    LinkCarries(lib, key, if n == 0 then None else Some(reps[n - 1]), links[n], reps[n]);
  }

  /** When a response gives a representation at all, and which resource it has. */
  lemma BuiltIff(lib: Library, key: ResourceKey, previous: Option<Representation>, link: Link)
    ensures var r := FromResponse(lib, key, previous, link.response, link.now, link.refresh);
            match link.response
            case NotModified(_, revalidated) =>
              && (r.Ok? <==> previous.Some? && revalidated.Some?)
              && (r.Ok? ==> r.value.resource == previous.value.resource)
            case Full(_, body, _) =>
              && (r.Ok? <==> ParseResource(lib, key, body).Ok?)
              && (r.Ok? ==> r.value.resource == ParseResource(lib, key, body).value)
  {
  }

  /** A key is never served stale exactly when no response of its chain gave a window. */
  lemma NeverStaleIff(lib: Library, key: ResourceKey, links: seq<Link>, reps: seq<Representation>)
    requires IsChain(lib, key, links, reps)
    ensures var last := reps[|reps| - 1];
            (forall now: int :: !StaleAllowed(last, now)) <==>
            forall i :: 0 <= i < |links| ==> StaleWindow(links[i].response.headers).None?
  {
    ChainWindow(lib, key, links, reps);
    var last := reps[|reps| - 1];
    if last.staleIfError.Some? {
      assert StaleAllowed(last, last.storedAt);
    }
  }

  /**
   `must-revalidate` on a revalidation does not close a window that an earlier response opened,
   although the documentation says that it disables the fallback.
   */
  lemma MustRevalidateKeepsEarlierWindow(
    lib: Library, key: ResourceKey, body: Body, policy: CachePolicy, now: int)
    requires ParseResource(lib, key, body).Ok?
    ensures var first := FromResponse(
                  lib, key, None, Full(Headers([StaleIfError(Some(60))], false), body, _ => policy), now, 0);
            first.Ok? &&
            var second := FromResponse(
                  lib, key, Some(first.value), NotModified(Headers([MustRevalidate], false), Some(policy)), now, 1);
            second.Ok? && StaleAllowed(second.value, now + 60_000)
  {
    var headers := Headers([StaleIfError(Some(60))], false);
    DefaultFreshnessKeepsWindow(headers);
    assert StaleWindow(headers) == Some(60_000);
  }
}
