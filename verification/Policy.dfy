/** Verification results, and what each enforcement mode admits. */
module Policy {

  datatype Mode = Observe | Optional | Required

  datatype InvalidKind = Malformed | Rejected

  datatype UnverifiedKind = Unsupported | UnknownKey | Unavailable

  datatype Reason =
    | Unsigned
    | IncompleteFields
    | RequestBodyUnsupported
    | RequestCapture
    | MalformedProfile
    | UnsupportedMultipleSignatures
    | NoSignatureAgent
    | UnboundSignatureAgent
    | UnknownDiscoveryType
    | BadDiscoveryUrl
    | FieldTooLarge
    | NoRequiredComponent
    | BadFreshness
    | UnknownAlgorithm
    | ResolverUnavailable
    | ResolverResponse
    | ResolverCalloutMismatch
    | KeyMissing
    | ResolverIdentifier
    | KeyThumbprint
    | KeyAlgorithm
    | SignatureVerification
    | Success

  datatype VerifiedIdentity = VerifiedIdentity(identifier: string, keyId: string)

  datatype VerificationResult =
    | NotPresent(reason: Reason)
    | Invalid(invalidKind: InvalidKind, reason: Reason)
    | Unverified(unverifiedKind: UnverifiedKind, reason: Reason)
    | Verified(identity: VerifiedIdentity)

  datatype Admission = Allow | Reject(status: nat, challenge: bool)

  function StatusOf(result: VerificationResult): string {
    match result
    case NotPresent(_) => "not-present"
    case Invalid(_, _) => "invalid"
    case Unverified(_, _) => "unverified"
    case Verified(_) => "verified"
  }

  function ReasonOf(result: VerificationResult): Reason {
    if result.Verified? then Success else result.reason
  }

  /**
   Observing admits everything. Otherwise a verified request is admitted, an unsigned one is
   admitted only where signatures are optional and is the only one ever challenged, and every
   other request is refused: 400 if malformed, 503 if verification was unavailable, 403 otherwise.
   */
  function AdmissionOf(mode: Mode, result: VerificationResult): (r: Admission)
    ensures r.Allow? <==> mode.Observe? || result.Verified? || (mode.Optional? && result.NotPresent?)
    ensures r.Reject? ==> (r.challenge <==> result.NotPresent?)
    ensures r.Reject? ==>
              && (r.status == 400 <==> result.Invalid? && result.invalidKind.Malformed?)
              && (r.status == 503 <==> result.Unverified? && result.unverifiedKind.Unavailable?)
              && r.status in {400, 403, 503}
  {
    if mode.Observe? then Allow
    else match result
      case NotPresent(_) => if mode.Required? then Reject(403, true) else Allow
      case Invalid(Malformed, _) => Reject(400, false)
      case Invalid(Rejected, _) => Reject(403, false)
      case Unverified(Unavailable, _) => Reject(503, false)
      case Unverified(_, _) => Reject(403, false)
      case Verified(_) => Allow
  }
}
