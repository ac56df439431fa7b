/** Option and Result, the two wrappers the model uses for Go's
    "value, ok" lookups and "value, err" returns. */
module Outcomes {

  /** A value that may be absent (a Go type assertion that failed). */
  datatype Option<+T> = None | Some(value: T)

  /** Either a value or an error (a Go `(T, error)` pair with exactly one meaningful half). */
  datatype Result<+T, +E> = Success(value: T) | Failure(error: E)
}
