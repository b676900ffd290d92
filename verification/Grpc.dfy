/** The result codes of a remote call, as the client library reports them. */
module Grpc {

  /** `NotAStatus` stands for an error that carries no status at all. */
  datatype Code =
    | OK | Canceled | Unknown | InvalidArgument | DeadlineExceeded | NotFound | AlreadyExists
    | PermissionDenied | ResourceExhausted | FailedPrecondition | Aborted | OutOfRange
    | Unimplemented | Internal | Unavailable | DataLoss | Unauthenticated | NotAStatus

  /** The codes that are retried, and that count against the circuit breaker. */
  predicate TransportFailure(code: Code) {
    code == Unavailable || code == DeadlineExceeded
  }

  const MAX_ATTEMPTS: nat := 3

  /** A call goes on after an attempt, counted from 0, that ends with this code. */
  predicate Retries(attempt: nat, code: Code) {
    TransportFailure(code) && attempt + 1 < MAX_ATTEMPTS
  }
}
