/** Fetch errors and the failure classes that decide about backoff and stale answers. */
module Fetch {
  import opened Wrappers

  datatype ResourceKind = JwksKind | CimdKind

  datatype FetchErrorKind =
    | BadRequest | Dns | UnsafeAddress | RateLimited | Overloaded | CircuitOpen | Timeout | Transport
    | HttpStatus | MediaType | ContentEncoding | BodyTooLarge | InvalidResource

  datatype FailureClass = Permanent | LoadShed | Transient | Open

  /** `retryAfter` is in milliseconds. */
  datatype FetchError = FetchError(kind: FetchErrorKind, status: Option<nat>, retryAfter: Option<nat>)

  function Plain(kind: FetchErrorKind): FetchError {
    FetchError(kind, None, None)
  }

  predicate TransientStatus(status: nat) {
    status in {408, 425, 429} || 500 <= status < 600
  }

  function Class(error: FetchError): FailureClass {
    match error.kind
    case Dns => Transient
    case Timeout => Transient
    case Transport => Transient
    case HttpStatus => if error.status.Some? && TransientStatus(error.status.value) then Transient else Permanent
    case CircuitOpen => Open
    case RateLimited => LoadShed
    case Overloaded => LoadShed
    case _ => Permanent
  }

  predicate AllowsStale(error: FetchError) {
    Class(error) in {Transient, Open}
  }

  // The classes again, by what they are for.

  /** A failure of the network or the server that may pass. */
  predicate IsPassing(error: FetchError) {
    || error.kind in {Dns, Timeout, Transport}
    || (&& error.kind == HttpStatus && error.status.Some?
        && (error.status.value in {408, 425, 429} || 500 <= error.status.value <= 599))
  }

  /** Only passing failures count against a circuit; those and an open circuit allow a stale answer. */
  lemma ClassesExact(error: FetchError)
    ensures Class(error) == Transient <==> IsPassing(error)
    ensures Class(error) == Open <==> error.kind == CircuitOpen
    ensures AllowsStale(error) <==> IsPassing(error) || error.kind == CircuitOpen
    ensures Class(error) == LoadShed <==> error.kind in {RateLimited, Overloaded}
  {
  }
}
