/** Option and Result values for the Go program's nil-able and error-returning values. */
module Wrappers {

  /** A value that may be absent (Go's nil error, or a missing result). */
  datatype Option<+T> = None | Some(value: T)

  /** The value of an operation that returns either data or a Go `error`. */
  datatype Result<+T> = Success(value: T) | Failure(error: string)
}
