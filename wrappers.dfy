/** Option and Result values used for Go's nil values and (value, error) returns. */
module Wrappers {

  /** A Go optional value: None stands for nil. */
  datatype Option<+T> = None | Some(value: T) {
    function GetOr(default: T): T {
      match this
      case Some(v) => v
      case None => default
    }
  }

  /** The (value, error) pair of a Go function that either succeeds or fails. */
  datatype Result<+R, +E> = Success(value: R) | Failure(error: E) {
    predicate IsFailure() {
      Failure?
    }
  }
}
