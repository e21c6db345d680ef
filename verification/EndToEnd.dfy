/**
 Module and resolver together. The two share the URL library and the thumbprint function; the
 resolver is either arbitrary, or honest: any run of the resolver's state machine.
 */
module EndToEnd {
  import opened Wrappers
  import opened Discovery
  import opened Resource
  import opened Wire
  import opened Request
  import opened Policy
  import opened Candidate
  import opened Verify
  import opened Filter
  import opened FilterRuns
  import Machine
  import MachineSafety

  // What the module sends.

  /** A candidate as acceptance leaves it: bounded texts, and the identifier of its own URL. */
  ghost predicate WellMade(lib: UrlLibrary, c: VerificationCandidate) {
    && 0 < |c.keyId| <= MAX_KEY_ID_BYTES && |c.signedUrl| <= MAX_AGENT_URL_BYTES
    && TargetOf(lib, c.signedUrl, c.discovery).Ok?
    && TargetOf(lib, c.signedUrl, c.discovery).value.normalizedIdentifier == c.normalizedIdentifier
  }

  /** Every accepted candidate is well made; its encoded request fits and reads back as itself. */
  lemma EmittedRequestFits(lib: ModuleLibrary, profile: Profile, request: RequestComponents, now: I64)
    requires CandidateOf(lib, profile, request, now).Ok?
    ensures var c := CandidateOf(lib, profile, request, now).value;
            && WellMade(lib.url, c)
            && |Encode(RequestFor(c))| < MAX_RESOLVE_BODY_BYTES
            && Decode(Encode(RequestFor(c))) == Some(RequestFor(c))
  {
    CandidateGuarantees(lib, profile, request, now);
    var c := CandidateOf(lib, profile, request, now).value;
    RequestFits(RequestFor(c));
    RequestRoundTrip(RequestFor(c));
  }

  /** The resolver accepts every request the module sends, and gives it the module's identifier. */
  lemma EmittedRequestValid(lib: Library, c: VerificationCandidate)
    requires WellMade(lib.url, c)
    ensures var r := Machine.ValidateRequest(lib, RequestFor(c));
            r.Ok? && r.value.normalizedIdentifier == c.normalizedIdentifier
  {
  }

  /** What a question for the resolver consists of. */
  ghost predicate Asked(
    lib: FilterLibrary, settings: Settings, a: Arrival, c: VerificationCandidate, body: string)
  {
    AskedOf(lib, settings, Captured(lib.utf8, Sanitized(a.headers)), a.now, c, body)
  }

  ghost predicate AskedOf(
    lib: FilterLibrary, settings: Settings, captured: Result<RequestComponents, CaptureError>, now: I64,
    c: VerificationCandidate, body: string)
  {
    && captured.Ok?
    && CandidateOf(lib.parsing, settings.profile, captured.value, now) == Ok(c)
    && body == Encode(RequestFor(c))
  }

  lemma ExaminedMeans(
    lib: FilterLibrary, settings: Settings, captured: Result<RequestComponents, CaptureError>, now: I64)
    ensures var begun := Examined(lib, settings, captured, now);
            begun.Asking? ==> AskedOf(lib, settings, captured, now, begun.candidate, begun.body)
  {
  }

  lemma AskingMeans(lib: FilterLibrary, settings: Settings, headers: Headers, endOfStream: bool, now: I64)
    ensures var begun := BeginOf(lib, settings, headers, endOfStream, now);
            && (begun.Decided? ==> !begun.result.Verified?)
            && (begun.Asking? ==>
                  AskedOf(lib, settings, Captured(lib.utf8, headers), now, begun.candidate, begun.body))
  {
    var captured := Captured(lib.utf8, headers);
    ExaminedMeans(lib, settings, captured, now);
  }

  /** The filter's too-large branch is never taken: what it is about to send always fits. */
  lemma TooLargeIsDead(lib: FilterLibrary, settings: Settings, headers: Headers, endOfStream: bool, now: I64)
    ensures var begun := BeginOf(lib, settings, headers, endOfStream, now);
            begun.Asking? ==> |begun.body| < MAX_RESOLVE_BODY_BYTES
  {
    AskingMeans(lib, settings, headers, endOfStream, now);
    var begun, captured := BeginOf(lib, settings, headers, endOfStream, now), Captured(lib.utf8, headers);
    if begun.Asking? {
      EmittedRequestFits(lib.parsing, settings.profile, captured.value, now);
    }
  }

  lemma ProceedMeans(settings: Settings, begun: Begun, callout: Option<nat>, headers: Headers)
    requires begun.Decided? ==> !begun.result.Verified?
    ensures var clean := Snapshot(None, [], Stream(headers, NO_METADATA, [], 0, []));
            var s := Proceed(settings, clean, begun, callout).0;
            && (s.pending.Some? ==>
                  && begun.Asking? && callout == Some(s.pending.value.calloutId)
                  && s.pending.value.candidate == begun.candidate && s.stream.sent == [begun.body])
            && (s.applied != [] ==> |s.applied| == 1 && !s.applied[0].Verified?)
  {
  }

  /** A pending stream sent one request, for the candidate it holds, and waits for that callout. */
  lemma PendingMeans(lib: FilterLibrary, settings: Settings, a: Arrival)
    ensures var s := Opened(lib, settings, a).0;
            && (s.pending.Some? ==>
                  && a.callout == Some(s.pending.value.calloutId)
                  && |s.stream.sent| == 1
                  && Asked(lib, settings, a, s.pending.value.candidate, s.stream.sent[0]))
            && (s.applied != [] ==> |s.applied| == 1 && !s.applied[0].Verified?)
  {
    AskingMeans(lib, settings, Sanitized(a.headers), a.endOfStream, a.now);
    var begun := BeginOf(lib, settings, Sanitized(a.headers), a.endOfStream, a.now);
    ProceedMeans(settings, begun, a.callout, Sanitized(a.headers));
  }

  /** What becomes of an accepted candidate: one question sent, and waiting for its callout, or unavailable. */
  lemma AskedExactly(settings: Settings, c: VerificationCandidate, body: string, callout: Option<nat>, headers: Headers)
    requires |body| < MAX_RESOLVE_BODY_BYTES
    ensures var clean := Snapshot(None, [], Stream(headers, NO_METADATA, [], 0, []));
            var (s, status) := Proceed(settings, clean, Asking(c, body), callout);
            && s.stream.sent == [body]
            && (callout.Some? ==>
                  s.pending == Some(Pending(callout.value, c)) && s.applied == [] && status == StopAllIterationAndWatermark)
            && (callout.None? ==> s.pending.None? && s.applied == [Unverified(Unavailable, ResolverUnavailable)])
  {
  }

  /**
   Every accepted candidate is asked about: its request is the one body sent, and the stream waits
   for exactly that callout; if none could be sent the candidate is reported unavailable.
   */
  lemma AcceptedIsAsked(lib: FilterLibrary, settings: Settings, a: Arrival, request: RequestComponents, c: VerificationCandidate)
    requires SendsAll(a.headers) && a.endOfStream && Captured(lib.utf8, Sanitized(a.headers)) == Ok(request)
    requires CandidateOf(lib.parsing, settings.profile, request, a.now) == Ok(c)
    ensures var (s, status) := Opened(lib, settings, a);
            && s.stream.sent == [Encode(RequestFor(c))]
            && (a.callout.Some? ==>
                  s.pending == Some(Pending(a.callout.value, c)) && s.applied == [] && status == StopAllIterationAndWatermark)
            && (a.callout.None? ==> s.pending.None? && s.applied == [Unverified(Unavailable, ResolverUnavailable)])
  {
    SanitizedSends(a.headers);
    var begun := BeginOf(lib, settings, Sanitized(a.headers), a.endOfStream, a.now);
    BegunAsking(lib, settings, Sanitized(a.headers), a.now, request, c);
    EmittedRequestFits(lib.parsing, settings.profile, request, a.now);
    AskedExactly(settings, c, begun.body, a.callout, Sanitized(a.headers));
  }

  lemma BegunAsking(
    lib: FilterLibrary, settings: Settings, headers: Headers, now: I64, request: RequestComponents, c: VerificationCandidate)
    requires SendsAll(headers) && Captured(lib.utf8, headers) == Ok(request)
    requires CandidateOf(lib.parsing, settings.profile, request, now) == Ok(c)
    ensures BeginOf(lib, settings, headers, true, now) == Asking(c, Encode(RequestFor(c)))
  {
  }

  // Against any resolver.

  /** Why a stream may count as verified: a request asked, an answer that proves it, in one callout. */
  ghost predicate Evidence(
    lib: FilterLibrary, settings: Settings, a: Arrival, e: Callout, c: VerificationCandidate, id: VerifiedIdentity)
  {
    && a.callout == Some(e.id)
    && Asked(lib, settings, a, c, Encode(RequestFor(c)))
    && Proves(lib.keys, c, ResponseOf(lib, e))
    && id == VerifiedIdentity(c.normalizedIdentifier, c.keyId)
  }

  /**
   Whatever the client sends and whatever the resolver answers, a stream is verified only by its
   first callout, which carried the number of the request asked and an answer with the candidate's
   identifier, a key with the candidate's key id for a thumbprint, and a signature that checks
   under that key.
   */
  lemma VerifiedMeans(lib: FilterLibrary, settings: Settings, a: Arrival, events: seq<Callout>, id: VerifiedIdentity)
    requires Run(lib, settings, a, events).applied == [Verified(id)]
    ensures events != []
    ensures exists c :: Evidence(lib, settings, a, events[0], c, id)
  {
    PendingMeans(lib, settings, a);
    assert events == [] ==> Run(lib, settings, a, events) == Opened(lib, settings, a).0;
    FirstCalloutDecides(lib, settings, a, events);
    var p := Opened(lib, settings, a).0.pending.value;
    assert Evidence(lib, settings, a, events[0], p.candidate, id);
  }

  // With an honest resolver.

  /** The resolver and the module compute thumbprints and URLs alike. */
  ghost predicate Shared(lib: FilterLibrary, cfg: Machine.Config) {
    lib.keys.thumbprint == cfg.lib.thumbprint && lib.parsing.url == cfg.lib.url
  }

  /**
   What an honest answer makes of a candidate: the identifiers agree; an unknown key is reported as
   such; and for directory discovery a resolved key has the right thumbprint, so that only the key
   itself and the signature decide.
   */
  ghost predicate FairResult(
    keys: KeyLibrary, c: VerificationCandidate, response: ResolveResponse, r: VerificationResult)
  {
    && response.normalizedIdentifier == c.normalizedIdentifier
    && ReasonOf(r) != ResolverIdentifier
    && (response.KeyNotFound? ==> r == Unverified(UnknownKey, KeyMissing))
    && (response.Resolved? && c.discovery.Directory? ==>
          && ReasonOf(r) != KeyThumbprint
          && (r.Verified? <==> keys.importable(response.jwk.x) && keys.check(c.verifier, response.jwk.x)))
  }

  /** In every run of the resolver, its answer to the module's request is treated fairly. */
  lemma HonestAnswerIsFair(
    keys: KeyLibrary, cfg: Machine.Config, actions: seq<Machine.Action>, who: nat, c: VerificationCandidate)
    requires Machine.Honest(cfg) && keys.thumbprint == cfg.lib.thumbprint && WellMade(cfg.lib.url, c)
    requires who in Machine.After(cfg, actions).answers
    requires Machine.After(cfg, actions).answers[who].request == RequestFor(c)
    requires Machine.After(cfg, actions).answers[who].result.Ok?
    ensures var response := Machine.After(cfg, actions).answers[who].result.value;
            FairResult(keys, c, response, VerifyResolverResponse(keys, c, Ok(response)))
  {
    MachineSafety.AnswersAlwaysCorrect(cfg, actions, who);
    Fairness(keys, c, Machine.After(cfg, actions).answers[who].result.value);
  }

  lemma Fairness(keys: KeyLibrary, c: VerificationCandidate, response: ResolveResponse)
    requires response.normalizedIdentifier == c.normalizedIdentifier
    requires c.discovery.Directory? && response.Resolved? ==> keys.thumbprint(response.jwk.x) == c.keyId
    ensures FairResult(keys, c, response, VerifyResolverResponse(keys, c, Ok(response)))
  {
  }

  /** The fair result of an answer, and that it tells whether the keys answer for the candidate. */
  ghost predicate CompleteResult(
    keys: KeyLibrary, lib: Library, resource: ParsedResource, c: VerificationCandidate, answer: Machine.Answer)
  {
    && resource.JwksResource? && answer.result.Ok?
    && var r := VerifyResolverResponse(keys, c, Ok(answer.result.value));
    && FairResult(keys, c, answer.result.value, r)
    && (r == Unverified(UnknownKey, KeyMissing) <==> !HasThumbprint(lib, resource.keys, c.keyId))
  }

  ghost predicate ExactAnswer(lib: Library, resource: ParsedResource, keyId: string, answer: Machine.Answer) {
    && resource.JwksResource? && answer.result.Ok?
    && (answer.result.value.Resolved? <==> HasThumbprint(lib, resource.keys, keyId))
  }

  lemma CompleteIfExact(
    keys: KeyLibrary, lib: Library, resource: ParsedResource, c: VerificationCandidate, answer: Machine.Answer)
    requires ExactAnswer(lib, resource, c.keyId, answer)
    requires FairResult(keys, c, answer.result.value, VerifyResolverResponse(keys, c, Ok(answer.result.value)))
    ensures CompleteResult(keys, lib, resource, c, answer)
  {
  }

  lemma ConcludedAnswer(cfg: Machine.Config, actions: seq<Machine.Action>, who: nat)
    requires Machine.Honest(cfg) && Machine.At(Machine.After(cfg, actions), who)
    requires var a := Machine.After(cfg, actions).active[who];
             a.request.discovery.Directory? && a.pc.Ended? && a.pc.result.Ok?
    ensures var a := Machine.After(cfg, actions).active[who];
            var answers := Machine.After(cfg, actions + [Machine.OfRequest(who, Machine.Conclude)]).answers;
            && who in answers && answers[who].request == a.request
            && ExactAnswer(cfg.lib, a.pc.result.value.resource, a.request.keyId, answers[who])
  {
    MachineSafety.DirectoryAnswersExact(cfg, actions, who);
    ConcludeIsStep(cfg, actions, who);
  }

  /**
   In every run of the resolver: when the load for a directory candidate ends with a resource, the
   candidate's key is reported unknown exactly when no entry has the key id for a thumbprint;
   otherwise only the key found and the signature decide whether it is verified.
   */
  lemma DirectoryIsComplete(
    keys: KeyLibrary, cfg: Machine.Config, actions: seq<Machine.Action>, who: nat, c: VerificationCandidate)
    requires Machine.Honest(cfg) && keys.thumbprint == cfg.lib.thumbprint && WellMade(cfg.lib.url, c)
    requires c.discovery.Directory? && Machine.At(Machine.After(cfg, actions), who)
    requires var a := Machine.After(cfg, actions).active[who];
             a.request == RequestFor(c) && a.pc.Ended? && a.pc.result.Ok?
    ensures var s := Machine.After(cfg, actions);
            var resource := s.active[who].pc.result.value.resource;
            var answers := Machine.After(cfg, actions + [Machine.OfRequest(who, Machine.Conclude)]).answers;
            who in answers && CompleteResult(keys, cfg.lib, resource, c, answers[who])
  {
    ConcludedAnswer(cfg, actions, who);
    HonestAnswerIsFair(keys, cfg, actions + [Machine.OfRequest(who, Machine.Conclude)], who, c);
    var s := Machine.After(cfg, actions);
    var answer := Machine.After(cfg, actions + [Machine.OfRequest(who, Machine.Conclude)]).answers[who];
    CompleteIfExact(keys, cfg.lib, s.active[who].pc.result.value.resource, c, answer);
  }

  lemma ConcludeIsStep(cfg: Machine.Config, actions: seq<Machine.Action>, who: nat)
    requires Machine.At(Machine.After(cfg, actions), who) && Machine.After(cfg, actions).active[who].pc.Ended?
    ensures Machine.After(cfg, actions + [Machine.OfRequest(who, Machine.Conclude)])
         == Machine.DoConclude(cfg, Machine.After(cfg, actions), who)
  {
    var more := actions + [Machine.OfRequest(who, Machine.Conclude)];
    assert more[..|more| - 1] == actions;
  }

  /**
   The whole way: a stream that asked, a resolver run that answered the request it reads from the
   body sent, and a first callout that brings that answer. The stream's one result is the fair one.
   */
  lemma HonestStream(
    lib: FilterLibrary, settings: Settings, a: Arrival, events: seq<Callout>,
    cfg: Machine.Config, actions: seq<Machine.Action>, who: nat)
    requires Machine.Honest(cfg) && Shared(lib, cfg)
    requires Opened(lib, settings, a).0.pending.Some?
    requires who in Machine.After(cfg, actions).answers
    requires var answer := Machine.After(cfg, actions).answers[who];
             var s := Opened(lib, settings, a).0;
             && |s.stream.sent| == 1 && Decode(s.stream.sent[0]) == Some(answer.request)
             && answer.result.Ok?
             && events != [] && events[0].id == s.pending.value.calloutId
             && ResponseOf(lib, events[0]) == Ok(answer.result.value)
    ensures var applied := Run(lib, settings, a, events).applied;
            && |applied| == 1
            && FairResult(lib.keys, Opened(lib, settings, a).0.pending.value.candidate,
                          Machine.After(cfg, actions).answers[who].result.value, applied[0])
  {
    PendingMeans(lib, settings, a);
    FirstCalloutDecides(lib, settings, a, events);
    var c := Opened(lib, settings, a).0.pending.value.candidate;
    var request := Captured(lib.utf8, Sanitized(a.headers)).value;
    EmittedRequestFits(lib.parsing, settings.profile, request, a.now);
    HonestAnswerIsFair(lib.keys, cfg, actions, who, c);
  }
}
