/** From the resolver's answer to a verification result. */
module Verify {
  import opened Wrappers
  import opened Wire
  import opened Policy
  import opened Candidate

  /** Key and signature functions that are foreign; `check` verifies a parsed signature under a key. */
  datatype KeyLibrary = KeyLibrary(
    thumbprint: string -> string, importable: string -> bool, check: (ParsedSignature, string) -> bool)

  /** The resolver's answer proves the candidate. */
  predicate Proves(lib: KeyLibrary, c: VerificationCandidate, response: Result<ResolveResponse, Reason>) {
    && response.Ok? && response.value.Resolved?
    && response.value.normalizedIdentifier == c.normalizedIdentifier
    && lib.thumbprint(response.value.jwk.x) == c.keyId
    && lib.importable(response.value.jwk.x)
    && lib.check(c.verifier, response.value.jwk.x)
  }

  /**
   Verified exactly when the answer proves the candidate, and then as the candidate's own identity.
   Whatever the resolver answers, only a failed signature check makes the request invalid.
   */
  function VerifyResolverResponse(lib: KeyLibrary, c: VerificationCandidate, response: Result<ResolveResponse, Reason>)
    : (r: VerificationResult)
    ensures r.Verified? <==> Proves(lib, c, response)
    ensures r.Verified? ==> r.identity == VerifiedIdentity(c.normalizedIdentifier, c.keyId)
    ensures r.Invalid? ==>
              && r.reason == SignatureVerification && response.Ok? && response.value.Resolved?
              && !lib.check(c.verifier, response.value.jwk.x)
    ensures r.Unverified? && r.unverifiedKind.UnknownKey? <==>
              response.Ok? && response.value == KeyNotFound(c.normalizedIdentifier)
    ensures r.Invalid? <==>
              && response.Ok? && response.value.Resolved? && response.value.normalizedIdentifier == c.normalizedIdentifier
              && lib.thumbprint(response.value.jwk.x) == c.keyId && lib.importable(response.value.jwk.x)
              && !lib.check(c.verifier, response.value.jwk.x)
    ensures r.Invalid? ==> r.invalidKind.Rejected?
    ensures r.Unverified? ==> !r.unverifiedKind.Unsupported?
    ensures response.Err? ==> r == Unverified(Unavailable, response.error)
    ensures response.Ok? && response.value.normalizedIdentifier != c.normalizedIdentifier ==>
              r == Unverified(Unavailable, ResolverIdentifier)
    ensures !r.NotPresent?
  {
    match response
    case Err(reason) => Unverified(Unavailable, reason)
    case Ok(KeyNotFound(identifier)) =>
      if identifier == c.normalizedIdentifier then Unverified(UnknownKey, KeyMissing)
      else Unverified(Unavailable, ResolverIdentifier)
    case Ok(Resolved(identifier, jwk)) =>
      if identifier != c.normalizedIdentifier then Unverified(Unavailable, ResolverIdentifier)
      else if lib.thumbprint(jwk.x) != c.keyId then Unverified(Unavailable, KeyThumbprint)
      else if !lib.importable(jwk.x) then Unverified(Unavailable, KeyAlgorithm)
      else if !lib.check(c.verifier, jwk.x) then Invalid(Rejected, SignatureVerification)
      else Verified(VerifiedIdentity(identifier, c.keyId))
  }

  // The response message.

  function Joined(chunks: seq<string>): string {
    if chunks == [] then "" else Joined(chunks[..|chunks| - 1]) + chunks[|chunks| - 1]
  }

  method JoinResponseBody(chunks: seq<string>) returns (r: Option<string>)
    ensures r == if |Joined(chunks)| > MAX_RESOLVE_BODY_BYTES then None else Some(Joined(chunks))
  {
    var length := 0;
    for i := 0 to |chunks|
      invariant length == |Joined(chunks[..i])|
    {
      assert chunks[..i + 1][..i] == chunks[..i];
      length := length + |chunks[i]|;
    }
    assert chunks[..|chunks|] == chunks;
    if length > MAX_RESOLVE_BODY_BYTES {
      return None;
    }
    var body := "";
    for i := 0 to |chunks|
      invariant body == Joined(chunks[..i])
    {
      assert chunks[..i + 1][..i] == chunks[..i];
      body := body + chunks[i];
    }
    r := Some(body);
  }

  /** The first status header that is a number. */
  function ResponseStatus(headers: seq<(string, string)>, number: string -> Option<nat>): Option<nat> {
    if headers == [] then None
    else if headers[0].0 == ":status" && number(headers[0].1).Some? then number(headers[0].1)
    else ResponseStatus(headers[1..], number)
  }

  /** Chunks are joined in order and whole. */
  lemma {:induction false} JoinedExact(a: seq<string>, b: seq<string>, chunk: string)
    ensures Joined(a + b) == Joined(a) + Joined(b) && Joined([chunk]) == chunk
    decreases |b|
  {
    assert [chunk][..0] == [];
    if b == [] {
      assert a + b == a;
    } else {
      var n := |b| - 1;
      JoinedExact(a, b[..n], chunk);
      assert (a + b)[..|a + b| - 1] == a + b[..n];
    }
  }

  /** The status is that of the first status header that reads as a number. */
  lemma {:induction false} ResponseStatusExact(headers: seq<(string, string)>, number: string -> Option<nat>, i: nat)
    requires i < |headers| && headers[i].0 == ":status" && number(headers[i].1).Some?
    requires forall j :: 0 <= j < i ==> headers[j].0 != ":status" || number(headers[j].1).None?
    ensures ResponseStatus(headers, number) == number(headers[i].1)
  {
    if i > 0 {
      ResponseStatusExact(headers[1..], number, i - 1);
    }
  }

  lemma {:induction false} NoResponseStatus(headers: seq<(string, string)>, number: string -> Option<nat>)
    requires forall j :: 0 <= j < |headers| ==> headers[j].0 != ":status" || number(headers[j].1).None?
    ensures ResponseStatus(headers, number).None?
  {
    if headers != [] {
      NoResponseStatus(headers[1..], number);
    }
  }
}
