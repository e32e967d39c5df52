/** Failure-carrying values used in place of Go's (value, error) pairs and nil results. */
module Wrappers {

  datatype Option<+T> = None | Some(value: T)

  /** A Go result pair: either a value with a nil error, or a nil value with an error. */
  datatype Result<+R, +E> = Success(value: R) | Failure(error: E)
}
