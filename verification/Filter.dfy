/**
 The request filter: one headers callback that decides or asks the resolver, and callout callbacks
 that decide. The stream it works on is an object of its own.
 */
module Filter {
  import opened Wrappers
  import opened Wire
  import opened Request
  import opened Policy
  import opened Candidate
  import opened Verify

  const HEADER_STATUS := "x-web-bot-auth-status"
  const HEADER_IDENTITY := "x-web-bot-auth-identity"
  const HEADER_KEY_ID := "x-web-bot-auth-keyid"

  datatype Settings = Settings(mode: Mode, forwardIdentityHeaders: bool, profile: Profile)

  /** Everything foreign; `readResponse` decodes a response body and `number` a status. */
  datatype FilterLibrary = FilterLibrary(
    parsing: ModuleLibrary, keys: KeyLibrary, utf8: Utf8,
    readResponse: string -> Option<ResolveResponse>, number: string -> Option<nat>)

  /** The module's own metadata of a stream. */
  datatype Metadata = Metadata(
    status: Option<string>, reason: Option<Reason>, verified: Option<bool>,
    identity: Option<string>, keyId: Option<string>)

  const NO_METADATA := Metadata(None, None, None, None, None)

  /** A local response; a challenge carries the `accept-signature` header. */
  datatype LocalResponse = LocalResponse(status: nat, challenge: bool, body: string)

  /** What the filter changes of a stream. */
  datatype Stream = Stream(
    headers: Headers, metadata: Metadata, sent: seq<string>, continues: nat, responses: seq<LocalResponse>)

  datatype Pending = Pending(calloutId: nat, candidate: VerificationCandidate)

  datatype HeadersStatus = Continue | StopIteration | StopAllIterationAndWatermark

  /** A callout's end as the proxy reports it. */
  datatype Callout = Callout(
    id: nat, success: bool, headers: Option<seq<(string, string)>>, chunks: Option<seq<string>>)

  // What the callbacks do, as functions.

  function Sanitized(headers: Headers): Headers {
    headers - {HEADER_STATUS, HEADER_IDENTITY, HEADER_KEY_ID}
  }

  function AssertedHeaders(headers: Headers, result: VerificationResult): Headers {
    var headers := headers[HEADER_STATUS := [StatusOf(result)]];
    if result.Verified?
    then headers[HEADER_IDENTITY := [result.identity.identifier]][HEADER_KEY_ID := [result.identity.keyId]]
    else headers
  }

  function AssertedMetadata(m: Metadata, result: VerificationResult): Metadata {
    var m := m.(status := Some(StatusOf(result)), reason := Some(ReasonOf(result)), verified := Some(result.Verified?));
    if result.Verified? then m.(identity := Some(result.identity.identifier), keyId := Some(result.identity.keyId)) else m
  }

  function DenialBody(status: nat): string {
    if status == 400 then "malformed Web Bot Auth request\n"
    else if status == 503 then "Web Bot Auth verification unavailable\n"
    else "Web Bot Auth required or invalid\n"
  }

  /** A stream after a result was applied to it. */
  function Asserted(settings: Settings, s: Stream, result: VerificationResult): Stream {
    var decision := AdmissionOf(settings.mode, result);
    s.(headers := if settings.forwardIdentityHeaders then AssertedHeaders(s.headers, result) else s.headers,
       metadata := AssertedMetadata(s.metadata, result),
       responses := if decision.Allow? then s.responses
                    else s.responses + [LocalResponse(decision.status, decision.challenge, DenialBody(decision.status))])
  }

  predicate Has(headers: Headers, name: string) {
    ValuesOf(headers, name) != []
  }

  function RequestFor(c: VerificationCandidate): ResolveRequest {
    ResolveRequest(c.discovery, c.signedUrl, c.keyId)
  }

  /** What the headers callback comes to: a result, or a question for the resolver. */
  datatype Begun =
    | Decided(result: VerificationResult)
    | Asking(candidate: VerificationCandidate, body: string)

  function BeginOf(lib: FilterLibrary, settings: Settings, headers: Headers, endOfStream: bool, now: I64): Begun {
    var early := EarlyResult(
      Has(headers, SIGNATURE), Has(headers, SIGNATURE_INPUT), Has(headers, SIGNATURE_AGENT), endOfStream);
    if early.Some? then Decided(early.value) else Examined(lib, settings, Captured(lib.utf8, headers), now)
  }

  /** The result of a request that is not captured at all. */
  function EarlyResult(signature: bool, input: bool, agent: bool, endOfStream: bool): (r: Option<VerificationResult>)
    ensures r.None? <==> signature && input && agent && endOfStream
    ensures r.Some? ==> !r.value.Verified? && (r.value.NotPresent? <==> !signature && !input && !agent)
    ensures (signature || input || agent) && !(signature && input && agent) ==> r == Some(Invalid(Malformed, IncompleteFields))
    ensures signature && input && agent && !endOfStream ==> r == Some(Unverified(Unsupported, RequestBodyUnsupported))
  {
    if !signature && !input && !agent then Some(NotPresent(Unsigned))
    else if !(signature && input && agent) then Some(Invalid(Malformed, IncompleteFields))
    else if !endOfStream then Some(Unverified(Unsupported, RequestBodyUnsupported))
    else None
  }

  /** A captured request either fails to be a candidate, or is asked about. */
  function Examined(
    lib: FilterLibrary, settings: Settings, captured: Result<RequestComponents, CaptureError>, now: I64)
    : (r: Begun)
    ensures r.Decided? ==> !r.result.Verified? && !r.result.NotPresent?
    ensures captured.Err? ==> r == Decided(Invalid(Malformed, RequestCapture))
    ensures r.Asking? ==>
              && captured.Ok? && CandidateOf(lib.parsing, settings.profile, captured.value, now) == Ok(r.candidate)
              && r.body == Encode(RequestFor(r.candidate))
  {
    match captured
    case Err(_) => Decided(Invalid(Malformed, RequestCapture))
    case Ok(request) =>
      match CandidateOf(lib.parsing, settings.profile, request, now)
      case Err(error) => Decided(ErrorResult(error))
      case Ok(candidate) => Asking(candidate, Encode(RequestFor(candidate)))
  }

  function ResponseOf(lib: FilterLibrary, e: Callout): Result<ResolveResponse, Reason> {
    if !e.success || e.headers.None? || ResponseStatus(e.headers.value, lib.number) != Some(200) then
      Err(ResolverUnavailable)
    else if e.chunks.None? || |Joined(e.chunks.value)| > MAX_RESOLVE_BODY_BYTES then Err(ResolverResponse)
    else match lib.readResponse(Joined(e.chunks.value))
      case Some(response) => Ok(response)
      case None => Err(ResolverResponse)
  }

  function ResultOf(lib: FilterLibrary, p: Pending, e: Callout): VerificationResult {
    if p.calloutId != e.id then Unverified(Unavailable, ResolverCalloutMismatch)
    else VerifyResolverResponse(lib.keys, p.candidate, ResponseOf(lib, e))
  }

  /** The filter, the results it has applied, and its stream, at one time. */
  datatype Snapshot = Snapshot(pending: Option<Pending>, applied: seq<VerificationResult>, stream: Stream)

  function Apply(settings: Settings, s: Snapshot, result: VerificationResult): Snapshot {
    s.(applied := s.applied + [result], stream := Asserted(settings, s.stream, result))
  }

  function StatusFor(settings: Settings, result: VerificationResult): HeadersStatus {
    if AdmissionOf(settings.mode, result).Allow? then Continue else StopIteration
  }

  /** Asking the resolver about a candidate; `callout` numbers the callout, if one could be sent. */
  function Ask(
    settings: Settings, s: Snapshot, candidate: VerificationCandidate, body: string, callout: Option<nat>)
    : (Snapshot, HeadersStatus)
  {
    if |body| > MAX_RESOLVE_BODY_BYTES then Conclude(settings, s, Invalid(Malformed, FieldTooLarge))
    else
      var sent := s.(stream := s.stream.(sent := s.stream.sent + [body]));
      match callout
      case None => Conclude(settings, sent, Unverified(Unavailable, ResolverUnavailable))
      case Some(id) => (sent.(pending := Some(Pending(id, candidate))), StopAllIterationAndWatermark)
  }

  function Conclude(settings: Settings, s: Snapshot, result: VerificationResult): (Snapshot, HeadersStatus) {
    (Apply(settings, s, result), StatusFor(settings, result))
  }

  function Proceed(settings: Settings, s: Snapshot, begun: Begun, callout: Option<nat>): (Snapshot, HeadersStatus) {
    match begun
    case Decided(result) => Conclude(settings, s, result)
    case Asking(candidate, body) => Ask(settings, s, candidate, body, callout)
  }

  function OnHeaders(
    lib: FilterLibrary, settings: Settings, s: Snapshot, endOfStream: bool, now: I64, callout: Option<nat>)
    : (Snapshot, HeadersStatus)
  {
    var clean := s.(stream := s.stream.(headers := Sanitized(s.stream.headers)));
    Proceed(settings, clean, BeginOf(lib, settings, clean.stream.headers, endOfStream, now), callout)
  }

  function OnCallout(lib: FilterLibrary, settings: Settings, s: Snapshot, e: Callout): Snapshot {
    if s.pending.None? then s
    else
      var result := ResultOf(lib, s.pending.value, e);
      var s' := Apply(settings, s.(pending := None), result);
      if AdmissionOf(settings.mode, result).Allow?
      then s'.(stream := s'.stream.(continues := s'.stream.continues + 1))
      else s'
  }

  // The callbacks.

  class Envoy {
    var headers: Headers
    var metadata: Metadata
    var sent: seq<string>
    var continues: nat
    var responses: seq<LocalResponse>

    constructor (headers: Headers)
      ensures View() == Stream(headers, NO_METADATA, [], 0, [])
    {
      this.headers, metadata, sent, continues, responses := headers, NO_METADATA, [], 0, [];
    }

    ghost function View(): Stream
      reads this
    {
      Stream(headers, metadata, sent, continues, responses)
    }
  }

  class WebBotAuthFilter {
    const settings: Settings
    var pending: Option<Pending>
    ghost var applied: seq<VerificationResult>

    constructor (settings: Settings)
      ensures this.settings == settings && pending.None? && applied == []
    {
      this.settings, pending, applied := settings, None, [];
    }

    ghost function View(envoy: Envoy): Snapshot
      reads this, envoy
    {
      Snapshot(pending, applied, envoy.View())
    }

    method ApplyResult(envoy: Envoy, result: VerificationResult) returns (decision: Admission)
      modifies this`applied, envoy
      ensures View(envoy) == Apply(settings, old(View(envoy)), result)
      ensures decision == AdmissionOf(settings.mode, result)
    {
      applied := applied + [result];
      var status := StatusOf(result);
      envoy.metadata := envoy.metadata.(status := Some(status), reason := Some(ReasonOf(result)));
      envoy.metadata := envoy.metadata.(verified := Some(result.Verified?));
      if result.Verified? {
        envoy.metadata := envoy.metadata.(
          identity := Some(result.identity.identifier), keyId := Some(result.identity.keyId));
      }
      if settings.forwardIdentityHeaders {
        envoy.headers := envoy.headers[HEADER_STATUS := [status]];
        if result.Verified? {
          envoy.headers := envoy.headers[HEADER_IDENTITY := [result.identity.identifier]];
          envoy.headers := envoy.headers[HEADER_KEY_ID := [result.identity.keyId]];
        }
      }
      decision := AdmissionOf(settings.mode, result);
      if decision.Reject? {
        envoy.responses := envoy.responses + [LocalResponse(decision.status, decision.challenge, DenialBody(decision.status))];
      }
    }

    method Finish(envoy: Envoy, result: VerificationResult) returns (status: HeadersStatus)
      modifies this`applied, envoy
      ensures View(envoy) == Apply(settings, old(View(envoy)), result)
      ensures status == StatusFor(settings, result)
    {
      var decision := ApplyResult(envoy, result);
      status := if decision.Allow? then Continue else StopIteration;
    }

    method SanitizeAssertionHeaders(envoy: Envoy)
      modifies envoy`headers
      ensures envoy.headers == Sanitized(old(envoy.headers))
    {
      var names := [HEADER_STATUS, HEADER_IDENTITY, HEADER_KEY_ID];
      for i := 0 to |names|
        invariant envoy.headers == old(envoy.headers) - (set j | 0 <= j < i :: names[j])
      {
        envoy.headers := envoy.headers - {names[i]};
      }
      assert (set j | 0 <= j < |names| :: names[j]) == {names[0], names[1], names[2]};
    }

    /** `callout` is the number of the callout sent, if the proxy could send one. */
    method OnRequestHeaders(lib: FilterLibrary, envoy: Envoy, endOfStream: bool, now: I64, callout: Option<nat>)
      returns (status: HeadersStatus)
      modifies this, envoy
      ensures (View(envoy), status) == OnHeaders(lib, settings, old(View(envoy)), endOfStream, now, callout)
    {
      SanitizeAssertionHeaders(envoy);
      var hasSignature := Has(envoy.headers, SIGNATURE);
      var hasSignatureInput := Has(envoy.headers, SIGNATURE_INPUT);
      var hasSignatureAgent := Has(envoy.headers, SIGNATURE_AGENT);
      if !hasSignature && !hasSignatureInput && !hasSignatureAgent {
        status := Finish(envoy, NotPresent(Unsigned));
        return;
      }
      if !(hasSignature && hasSignatureInput && hasSignatureAgent) {
        status := Finish(envoy, Invalid(Malformed, IncompleteFields));
        return;
      }
      if !endOfStream {
        status := Finish(envoy, Unverified(Unsupported, RequestBodyUnsupported));
        return;
      }
      var request := TryFromEnvoy(lib.utf8, envoy.headers);
      if request.Err? {
        status := Finish(envoy, Invalid(Malformed, RequestCapture));
        return;
      }
      var candidate := Parse(lib.parsing, settings.profile, request.value, now);
      if candidate.Err? {
        status := Finish(envoy, ErrorResult(candidate.error));
        return;
      }
      var body := Encode(RequestFor(candidate.value));
      status := AskResolver(envoy, candidate.value, body, callout);
    }

    method AskResolver(envoy: Envoy, candidate: VerificationCandidate, body: string, callout: Option<nat>)
      returns (status: HeadersStatus)
      modifies this, envoy
      ensures (View(envoy), status) == Ask(settings, old(View(envoy)), candidate, body, callout)
    {
      if |body| > MAX_RESOLVE_BODY_BYTES {
        status := Finish(envoy, Invalid(Malformed, FieldTooLarge));
        return;
      }
      envoy.sent := envoy.sent + [body];
      if callout.None? {
        status := Finish(envoy, Unverified(Unavailable, ResolverUnavailable));
        return;
      }
      pending := Some(Pending(callout.value, candidate));
      status := StopAllIterationAndWatermark;
    }

    method OnHttpCalloutDone(lib: FilterLibrary, envoy: Envoy, e: Callout)
      modifies this, envoy
      ensures View(envoy) == OnCallout(lib, settings, old(View(envoy)), e)
    {
      if pending.None? {
        return;
      }
      var taken := pending.value;
      pending := None;
      if taken.calloutId != e.id {
        var decision := ApplyResult(envoy, Unverified(Unavailable, ResolverCalloutMismatch));
        if decision.Allow? {
          envoy.continues := envoy.continues + 1;
        }
        return;
      }
      var response := ReadResponse(lib, e);
      var result := VerifyResolverResponse(lib.keys, taken.candidate, response);
      var decision := ApplyResult(envoy, result);
      if decision.Allow? {
        envoy.continues := envoy.continues + 1;
      }
    }
  }

  method ReadResponse(lib: FilterLibrary, e: Callout) returns (r: Result<ResolveResponse, Reason>)
    ensures r == ResponseOf(lib, e)
  {
    if !e.success || e.headers.None? || ResponseStatus(e.headers.value, lib.number) != Some(200) {
      return Err(ResolverUnavailable);
    }
    if e.chunks.None? {
      return Err(ResolverResponse);
    }
    var body := JoinResponseBody(e.chunks.value);
    if body.None? {
      return Err(ResolverResponse);
    }
    var response := lib.readResponse(body.value);
    r := if response.Some? then Ok(response.value) else Err(ResolverResponse);
  }

  /** A response is read exactly when the callout succeeded with status 200 and a readable body of at most 8 KiB. */
  lemma ResponseIff(lib: FilterLibrary, e: Callout, response: ResolveResponse)
    ensures ResponseOf(lib, e) == Ok(response) <==>
            && e.success && e.headers.Some? && ResponseStatus(e.headers.value, lib.number) == Some(200)
            && e.chunks.Some? && |Joined(e.chunks.value)| <= 8192
            && lib.readResponse(Joined(e.chunks.value)) == Some(response)
  {
  }
}
