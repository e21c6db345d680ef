/**
 Whole streams: one headers callback and any callout callbacks after it, in any number, with any
 numbers and contents.
 */
module FilterRuns {
  import opened Wrappers
  import opened Wire
  import opened Request
  import opened Policy
  import opened Candidate
  import opened Verify
  import opened Filter

  /** What the proxy hands to the headers callback of one stream. */
  datatype Arrival = Arrival(headers: Headers, endOfStream: bool, now: I64, callout: Option<nat>)

  function Opened(lib: FilterLibrary, settings: Settings, a: Arrival): (Snapshot, HeadersStatus) {
    var s := Snapshot(None, [], Stream(a.headers, NO_METADATA, [], 0, []));
    OnHeaders(lib, settings, s, a.endOfStream, a.now, a.callout)
  }

  function Called(lib: FilterLibrary, settings: Settings, s: Snapshot, events: seq<Callout>): Snapshot {
    if events == [] then s
    else OnCallout(lib, settings, Called(lib, settings, s, events[..|events| - 1]), events[|events| - 1])
  }

  /** The stream after its headers and then these callouts. */
  function Run(lib: FilterLibrary, settings: Settings, a: Arrival, events: seq<Callout>): Snapshot {
    Called(lib, settings, Opened(lib, settings, a).0, events)
  }

  /** How often the request was let through: by the headers callback, or by resuming it later. */
  function Forwarded(status: HeadersStatus, s: Stream): nat {
    s.continues + if status.Continue? then 1 else 0
  }

  /** Where a stream stands before any result: sanitized, and asking at most once. */
  predicate Waiting(s: Snapshot, headers: Headers) {
    && s.applied == [] && s.pending.Some?
    && s.stream == Stream(Sanitized(headers), NO_METADATA, s.stream.sent, 0, [])
  }

  /** Where a stream stands once a result was applied: exactly as that result says. */
  predicate Settled(settings: Settings, status: HeadersStatus, s: Snapshot, headers: Headers) {
    && |s.applied| == 1 && s.pending.None?
    && var result := s.applied[0];
    var decision := AdmissionOf(settings.mode, result);
    && Forwarded(status, s.stream) == (if decision.Allow? then 1 else 0)
    && s.stream.responses ==
       (if decision.Allow? then []
        else [LocalResponse(decision.status, decision.challenge, DenialBody(decision.status))])
    && s.stream.metadata == AssertedMetadata(NO_METADATA, result)
    && s.stream.headers ==
       (if settings.forwardIdentityHeaders then AssertedHeaders(Sanitized(headers), result) else Sanitized(headers))
  }

  predicate Proper(settings: Settings, status: HeadersStatus, s: Snapshot, headers: Headers) {
    Settled(settings, status, s, headers) || (Waiting(s, headers) && !status.Continue?)
  }

  lemma ConcludeSettles(settings: Settings, s: Snapshot, result: VerificationResult, headers: Headers)
    requires s.pending.None? && s.applied == []
    requires s.stream == Stream(Sanitized(headers), NO_METADATA, s.stream.sent, 0, [])
    ensures var (s', status) := Conclude(settings, s, result);
            Settled(settings, status, s', headers) && s'.applied == [result]
  {
  }

  lemma AskProper(
    settings: Settings, s: Snapshot, c: VerificationCandidate, body: string, callout: Option<nat>, headers: Headers)
    requires s.pending.None? && s.applied == []
    requires s.stream == Stream(Sanitized(headers), NO_METADATA, s.stream.sent, 0, [])
    ensures var (s', status) := Ask(settings, s, c, body, callout);
            Proper(settings, status, s', headers)
  {
    if |body| > MAX_RESOLVE_BODY_BYTES {
      ConcludeSettles(settings, s, Invalid(Malformed, FieldTooLarge), headers);
    } else if callout.None? {
      var sent := s.(stream := s.stream.(sent := s.stream.sent + [body]));
      ConcludeSettles(settings, sent, Unverified(Unavailable, ResolverUnavailable), headers);
    }
  }

  lemma ProceedProper(settings: Settings, begun: Begun, callout: Option<nat>, headers: Headers)
    ensures var clean := Snapshot(None, [], Stream(Sanitized(headers), NO_METADATA, [], 0, []));
            var (s, status) := Proceed(settings, clean, begun, callout);
            Proper(settings, status, s, headers)
  {
    var clean := Snapshot(None, [], Stream(Sanitized(headers), NO_METADATA, [], 0, []));
    match begun {
      case Decided(result) => ConcludeSettles(settings, clean, result, headers);
      case Asking(c, body) => AskProper(settings, clean, c, body, callout, headers);
    }
  }

  lemma OpenedProper(lib: FilterLibrary, settings: Settings, a: Arrival)
    ensures var (s, status) := Opened(lib, settings, a);
            Proper(settings, status, s, a.headers)
  {
    ProceedProper(
      settings, BeginOf(lib, settings, Sanitized(a.headers), a.endOfStream, a.now), a.callout, a.headers);
  }

  lemma CalloutProper(
    lib: FilterLibrary, settings: Settings, status: HeadersStatus, s: Snapshot, e: Callout, headers: Headers)
    requires Proper(settings, status, s, headers)
    ensures Settled(settings, status, OnCallout(lib, settings, s, e), headers)
    ensures OnCallout(lib, settings, s, e).applied ==
            if s.pending.Some? then [ResultOf(lib, s.pending.value, e)] else s.applied
  {
  }

  lemma {:induction false} CalledProper(
    lib: FilterLibrary, settings: Settings, status: HeadersStatus, s: Snapshot, events: seq<Callout>, headers: Headers)
    requires Proper(settings, status, s, headers)
    ensures Proper(settings, status, Called(lib, settings, s, events), headers)
    ensures events != [] ==> Settled(settings, status, Called(lib, settings, s, events), headers)
  {
    if events != [] {
      var n := |events| - 1;
      CalledProper(lib, settings, status, s, events[..n], headers);
      CalloutProper(lib, settings, status, Called(lib, settings, s, events[..n]), events[n], headers);
    }
  }

  // What holds of every stream.

  /**
   At most one result is ever applied, and one has been exactly when nothing is pending. Before, the
   request is held: not forwarded, not answered, nothing asserted. After, it is forwarded once or
   answered once, as the mode admits the result, and headers and metadata say that result.
   */
  lemma OneResultPerStream(lib: FilterLibrary, settings: Settings, a: Arrival, events: seq<Callout>)
    ensures var (s, status) := (Run(lib, settings, a, events), Opened(lib, settings, a).1);
            && |s.applied| <= 1
            && (|s.applied| == 1 <==> s.pending.None?)
            && Forwarded(status, s.stream) + |s.stream.responses| == |s.applied|
            && (s.applied == [] ==>
                  s.stream.headers == Sanitized(a.headers) && s.stream.metadata == NO_METADATA)
            && (|s.applied| == 1 ==> Settled(settings, status, s, a.headers))
  {
    OpenedProper(lib, settings, a);
    var (s, status) := Opened(lib, settings, a);
    CalledProper(lib, settings, status, s, events, a.headers);
  }

  /** Headers that assert exactly these results, over what the client sent. */
  predicate AssertsOnly(headers: Headers, results: seq<VerificationResult>, client: Headers) {
    && (HEADER_STATUS in headers <==> results != [])
    && (HEADER_IDENTITY in headers <==> results != [] && results[0].Verified?)
    && (HEADER_KEY_ID in headers <==> results != [] && results[0].Verified?)
    && (results != [] ==> headers[HEADER_STATUS] == [StatusOf(results[0])])
    && (results != [] ==> (headers[HEADER_STATUS] == ["verified"] <==> results[0].Verified?))
    && (results != [] && results[0].Verified? ==>
          && headers[HEADER_IDENTITY] == [results[0].identity.identifier]
          && headers[HEADER_KEY_ID] == [results[0].identity.keyId])
    && Sanitized(headers) == Sanitized(client)
  }

  /**
   The upstream sees an identity only after verification and only as verified, whatever the client
   sent under the module's header names; every other header is what the client sent.
   */
  lemma TrustedHeaders(lib: FilterLibrary, settings: Settings, a: Arrival, events: seq<Callout>)
    ensures var s := Run(lib, settings, a, events);
            AssertsOnly(s.stream.headers, if settings.forwardIdentityHeaders then s.applied else [], a.headers)
    ensures var s := Run(lib, settings, a, events);
            var identity := s.stream.metadata.identity;
            && (identity.Some? <==> s.applied != [] && s.applied[0].Verified?)
            && (identity.Some? ==> identity.value == s.applied[0].identity.identifier)
            && (s.stream.metadata.verified == Some(true) <==> identity.Some?)
  {
    OneResultPerStream(lib, settings, a, events);
    ProperTrusted(settings, Opened(lib, settings, a).1, Run(lib, settings, a, events), a.headers);
  }

  lemma ProperTrusted(settings: Settings, status: HeadersStatus, s: Snapshot, headers: Headers)
    requires Settled(settings, status, s, headers) || (s.applied == [] && s.stream.headers == Sanitized(headers))
    ensures AssertsOnly(s.stream.headers, if settings.forwardIdentityHeaders then s.applied else [], headers)
  {
    if settings.forwardIdentityHeaders && s.applied != [] {
      AssertedExactly(headers, s.applied[0]);
    } else {
      assert Sanitized(Sanitized(headers)) == Sanitized(headers);
    }
  }

  lemma AssertedExactly(headers: Headers, result: VerificationResult)
    ensures AssertsOnly(AssertedHeaders(Sanitized(headers), result), [result], headers)
  {
    assert Sanitized(AssertedHeaders(Sanitized(headers), result)) == Sanitized(headers);
  }

  lemma {:induction false} FirstDecides(
    lib: FilterLibrary, settings: Settings, status: HeadersStatus, s: Snapshot, events: seq<Callout>, headers: Headers)
    requires events != [] && Proper(settings, status, s, headers)
    ensures Called(lib, settings, s, events) == OnCallout(lib, settings, s, events[0])
  {
    var n := |events| - 1;
    assert Called(lib, settings, s, []) == s;
    if n == 0 {
      assert events[..n] == [];
    } else {
      FirstDecides(lib, settings, status, s, events[..n], headers);
      CalloutProper(lib, settings, status, s, events[0], headers);
    }
  }

  /** The first callout decides, whatever its number; every later one changes nothing. */
  lemma FirstCalloutDecides(lib: FilterLibrary, settings: Settings, a: Arrival, events: seq<Callout>)
    requires events != []
    ensures Run(lib, settings, a, events) == OnCallout(lib, settings, Opened(lib, settings, a).0, events[0])
    ensures var s := Opened(lib, settings, a).0;
            Run(lib, settings, a, events).applied ==
            if s.pending.Some? then [ResultOf(lib, s.pending.value, events[0])] else s.applied
  {
    OpenedProper(lib, settings, a);
    FirstDecides(lib, settings, Opened(lib, settings, a).1, Opened(lib, settings, a).0, events, a.headers);
    CalloutProper(lib, settings, Opened(lib, settings, a).1, Opened(lib, settings, a).0, events[0], a.headers);
  }

  // Which result, for which request.

  predicate SendsNone(headers: Headers) {
    ValuesOf(headers, "signature") == [] && ValuesOf(headers, "signature-input") == [] && ValuesOf(headers, "signature-agent") == []
  }

  predicate SendsAll(headers: Headers) {
    ValuesOf(headers, "signature") != [] && ValuesOf(headers, "signature-input") != [] && ValuesOf(headers, "signature-agent") != []
  }

  lemma SanitizedSends(headers: Headers)
    ensures SendsNone(Sanitized(headers)) <==> SendsNone(headers)
    ensures SendsAll(Sanitized(headers)) <==> SendsAll(headers)
  {
  }

  lemma BegunExact(lib: FilterLibrary, settings: Settings, headers: Headers, endOfStream: bool, now: I64)
    ensures var begun := BeginOf(lib, settings, headers, endOfStream, now);
            && (begun.Decided? ==> !begun.result.Verified? && (begun.result.NotPresent? <==> SendsNone(headers)))
            && (begun.Asking? ==> SendsAll(headers))
  {
    var captured := Captured(lib.utf8, headers);
    assert Examined(lib, settings, captured, now).Decided? ==> !Examined(lib, settings, captured, now).result.NotPresent?;
  }

  /** What follows from the headers callback: the result decided on, one for a failed question, or waiting. */
  lemma ProceedApplies(settings: Settings, begun: Begun, callout: Option<nat>, headers: Headers)
    ensures var clean := Snapshot(None, [], Stream(headers, NO_METADATA, [], 0, []));
            var s := Proceed(settings, clean, begun, callout).0;
            && (begun.Decided? ==> s.applied == [begun.result])
            && (begun.Asking? && s.pending.None? ==>
                  |s.applied| == 1 && !s.applied[0].Verified? && !s.applied[0].NotPresent?)
  {
  }

  lemma OpenedApplies(lib: FilterLibrary, settings: Settings, a: Arrival)
    ensures var s := Opened(lib, settings, a).0;
            && (s.applied != [] ==>
                  |s.applied| == 1 && !s.applied[0].Verified? && (s.applied[0].NotPresent? <==> SendsNone(a.headers)))
            && (s.pending.Some? ==> SendsAll(a.headers))
  {
    var begun := BeginOf(lib, settings, Sanitized(a.headers), a.endOfStream, a.now);
    BegunExact(lib, settings, Sanitized(a.headers), a.endOfStream, a.now);
    SanitizedSends(a.headers);
    ProceedApplies(settings, begun, a.callout, Sanitized(a.headers));
    OpenedProper(lib, settings, a);
  }

  lemma ResultNeverUnsigned(lib: FilterLibrary, p: Pending, e: Callout)
    ensures !ResultOf(lib, p, e).NotPresent?
  {
  }

  /** Over any callouts, the result applied is that of an unsigned request exactly when none of the fields was sent. */
  lemma UnsignedIff(lib: FilterLibrary, settings: Settings, a: Arrival, events: seq<Callout>)
    requires Run(lib, settings, a, events).applied != []
    ensures Run(lib, settings, a, events).applied[0].NotPresent? <==> SendsNone(a.headers)
  {
    OpenedApplies(lib, settings, a);
    if events != [] {
      FirstCalloutDecides(lib, settings, a, events);
      var s := Opened(lib, settings, a).0;
      if s.pending.Some? {
        ResultNeverUnsigned(lib, s.pending.value, events[0]);
      }
    }
  }

  /** Where signatures are enforced, a request with any of the fields is let through only once verified. */
  lemma ForwardedOnlyVerified(lib: FilterLibrary, settings: Settings, a: Arrival, events: seq<Callout>)
    requires !settings.mode.Observe? && !SendsNone(a.headers)
    requires Forwarded(Opened(lib, settings, a).1, Run(lib, settings, a, events).stream) > 0
    ensures Run(lib, settings, a, events).applied != [] && Run(lib, settings, a, events).applied[0].Verified?
  {
    OneResultPerStream(lib, settings, a, events);
    UnsignedIff(lib, settings, a, events);
  }

  /** A stream decided in the headers callback stays decided. */
  lemma DecidedAtOnce(lib: FilterLibrary, settings: Settings, a: Arrival, events: seq<Callout>, result: VerificationResult)
    requires BeginOf(lib, settings, Sanitized(a.headers), a.endOfStream, a.now) == Decided(result)
    ensures Run(lib, settings, a, events).applied == [result]
  {
    ProceedApplies(settings, Decided(result), a.callout, Sanitized(a.headers));
    OpenedProper(lib, settings, a);
    if events != [] {
      FirstCalloutDecides(lib, settings, a, events);
    }
  }

  /** The stream was answered here, with this status and without a challenge, and not let through. */
  ghost predicate AnsweredWith(lib: FilterLibrary, settings: Settings, a: Arrival, events: seq<Callout>, status: nat) {
    var s := Run(lib, settings, a, events).stream;
    && Forwarded(Opened(lib, settings, a).1, s) == 0
    && |s.responses| == 1 && s.responses[0].status == status && !s.responses[0].challenge
    && (status == 400 ==> s.responses[0].body == "malformed Web Bot Auth request\n")
    && (status == 403 ==> s.responses[0].body == "Web Bot Auth required or invalid\n")
    && (status == 503 ==> s.responses[0].body == "Web Bot Auth verification unavailable\n")
  }

  lemma AnsweredAs(lib: FilterLibrary, settings: Settings, a: Arrival, events: seq<Callout>, result: VerificationResult)
    requires Run(lib, settings, a, events).applied == [result] && AdmissionOf(settings.mode, result).Reject?
    requires !result.NotPresent?
    ensures AnsweredWith(lib, settings, a, events, AdmissionOf(settings.mode, result).status)
  {
    OneResultPerStream(lib, settings, a, events);
  }

  /**
   Where signatures are enforced, a request refused as a candidate is answered 400 if it does not
   parse or is too large, and 403 for every other reason; never 503, and never let through.
   */
  lemma RefusedCandidate(
    lib: FilterLibrary, settings: Settings, a: Arrival, events: seq<Callout>, request: RequestComponents,
    error: CandidateError)
    requires !settings.mode.Observe? && SendsAll(a.headers) && a.endOfStream
    requires Captured(lib.utf8, Sanitized(a.headers)) == Ok(request)
    requires CandidateOf(lib.parsing, settings.profile, request, a.now) == Err(error)
    ensures AnsweredWith(lib, settings, a, events, if error in {BadSyntax, ProfileFieldTooLarge} then 400 else 403)
  {
    SanitizedSends(a.headers);
    DecidedAtOnce(lib, settings, a, events, ErrorResult(error));
    ErrorResultExact(error, error);
    AnsweredAs(lib, settings, a, events, ErrorResult(error));
  }

  /** A request with some fields missing, or that cannot be captured, is answered 400; one with a body 403. */
  lemma RefusedRequest(lib: FilterLibrary, settings: Settings, a: Arrival, events: seq<Callout>)
    requires !settings.mode.Observe? && !SendsNone(a.headers)
    ensures !SendsAll(a.headers) ==> AnsweredWith(lib, settings, a, events, 400)
    ensures SendsAll(a.headers) && !a.endOfStream ==> AnsweredWith(lib, settings, a, events, 403)
    ensures SendsAll(a.headers) && a.endOfStream && Captured(lib.utf8, Sanitized(a.headers)).Err? ==>
              AnsweredWith(lib, settings, a, events, 400)
  {
    SanitizedSends(a.headers);
    if !SendsAll(a.headers) {
      RefusedAtOnce(lib, settings, a, events, Invalid(Malformed, IncompleteFields));
    } else if !a.endOfStream {
      RefusedAtOnce(lib, settings, a, events, Unverified(Unsupported, RequestBodyUnsupported));
    } else if Captured(lib.utf8, Sanitized(a.headers)).Err? {
      RefusedAtOnce(lib, settings, a, events, Invalid(Malformed, RequestCapture));
    }
  }

  lemma RefusedAtOnce(lib: FilterLibrary, settings: Settings, a: Arrival, events: seq<Callout>, result: VerificationResult)
    requires BeginOf(lib, settings, Sanitized(a.headers), a.endOfStream, a.now) == Decided(result)
    requires AdmissionOf(settings.mode, result).Reject? && !result.NotPresent?
    ensures AnsweredWith(lib, settings, a, events, AdmissionOf(settings.mode, result).status)
  {
    DecidedAtOnce(lib, settings, a, events, result);
    AnsweredAs(lib, settings, a, events, result);
  }

  /** The resolver says, for the candidate, that it has no such key; or its key is the right one and the signature is not. */
  predicate Disproves(keys: KeyLibrary, c: VerificationCandidate, response: Result<ResolveResponse, Reason>) {
    && response.Ok? && response.value.normalizedIdentifier == c.normalizedIdentifier
    && (response.value.Resolved? ==>
          && keys.thumbprint(response.value.jwk.x) == c.keyId && keys.importable(response.value.jwk.x)
          && !keys.check(c.verifier, response.value.jwk.x))
  }

  /** The first callout is the one the stream waits for, and its response is as given. */
  predicate Brings(lib: FilterLibrary, p: Pending, e: Callout, response: Result<ResolveResponse, Reason>) {
    e.id == p.calloutId && ResponseOf(lib, e) == response
  }

  lemma DecidedByCallout(lib: FilterLibrary, settings: Settings, a: Arrival, events: seq<Callout>)
    requires events != [] && Opened(lib, settings, a).0.pending.Some?
    ensures Run(lib, settings, a, events).applied == [ResultOf(lib, Opened(lib, settings, a).0.pending.value, events[0])]
  {
    FirstCalloutDecides(lib, settings, a, events);
  }

  lemma LetThrough(lib: FilterLibrary, settings: Settings, a: Arrival, events: seq<Callout>, result: VerificationResult)
    requires Run(lib, settings, a, events).applied == [result] && AdmissionOf(settings.mode, result).Allow?
    ensures Forwarded(Opened(lib, settings, a).1, Run(lib, settings, a, events).stream) == 1
    ensures Run(lib, settings, a, events).stream.responses == []
  {
    OneResultPerStream(lib, settings, a, events);
  }

  /** A stream whose first callout is its own and proves the candidate is let through. */
  lemma ProvenIsLetThrough(
    lib: FilterLibrary, settings: Settings, a: Arrival, events: seq<Callout>, p: Pending,
    response: Result<ResolveResponse, Reason>)
    requires events != [] && Opened(lib, settings, a).0.pending == Some(p)
    requires Brings(lib, p, events[0], response) && Proves(lib.keys, p.candidate, response)
    ensures Forwarded(Opened(lib, settings, a).1, Run(lib, settings, a, events).stream) == 1
    ensures Run(lib, settings, a, events).stream.responses == []
  {
    DecidedByCallout(lib, settings, a, events);
    ResultExact(lib, p, events[0]);
    LetThrough(lib, settings, a, events, ResultOf(lib, p, events[0]));
  }

  /**
   Where signatures are enforced, every other stream that asked is answered: 403 exactly when its
   first callout is its own and disproves the candidate, and 503 in every other case.
   */
  lemma UnprovenIsAnswered(
    lib: FilterLibrary, settings: Settings, a: Arrival, events: seq<Callout>, p: Pending,
    response: Result<ResolveResponse, Reason>)
    requires !settings.mode.Observe? && events != [] && Opened(lib, settings, a).0.pending == Some(p)
    requires ResponseOf(lib, events[0]) == response
    requires events[0].id != p.calloutId || !Proves(lib.keys, p.candidate, response)
    ensures AnsweredWith(lib, settings, a, events,
                         if events[0].id == p.calloutId && Disproves(lib.keys, p.candidate, response) then 403 else 503)
  {
    DecidedByCallout(lib, settings, a, events);
    ResultExact(lib, p, events[0]);
    AnsweredAs(lib, settings, a, events, ResultOf(lib, p, events[0]));
  }

  lemma ResultExact(lib: FilterLibrary, p: Pending, e: Callout)
    ensures var r, mine, response := ResultOf(lib, p, e), e.id == p.calloutId, ResponseOf(lib, e);
            && (r.Verified? <==> mine && Proves(lib.keys, p.candidate, response))
            && (r.Unverified? && r.unverifiedKind.Unavailable? <==>
                  !(mine && (Proves(lib.keys, p.candidate, response) || Disproves(lib.keys, p.candidate, response))))
            && !r.NotPresent? && (r.Invalid? ==> r.invalidKind.Rejected?)
  {
  }
}
