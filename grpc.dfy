/**
 * The error side of every handler: a gRPC status, i.e. a code from the
 * standard gRPC code table and a human-readable message.  A handler either
 * returns its payload or fails with a status, never both.
 */
module Grpc {

  /** The gRPC status codes (google.golang.org/grpc/codes). */
  datatype Code =
    | OK | Canceled | Unknown | InvalidArgument | DeadlineExceeded | NotFound
    | AlreadyExists | PermissionDenied | ResourceExhausted | FailedPrecondition
    | Aborted | OutOfRange | Unimplemented | Internal | Unavailable | DataLoss
    | Unauthenticated

  /** What `status.Errorf(code, ...)` builds: the code and the formatted message. */
  datatype Status = Status(code: Code, message: string)

  /** A handler's `(*T, error)` pair: exactly one of the two is present. */
  datatype Result<+T> = Success(value: T) | Failure(error: Status)
}
