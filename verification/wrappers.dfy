/** Failure-compatible Option and Result datatypes used throughout the model. */
module Wrappers {

  /** A value that may be absent: a missing XML element, a missing map key. */
  datatype Option<+T> = None | Some(value: T)

  /** The outcome of an operation that raises in the source. */
  datatype Result<+R, +E> = Success(value: R) | Failure(error: E) {

    predicate IsFailure() {
      Failure?
    }

    function PropagateFailure<U>(): Result<U, E>
      requires Failure?
    {
      Failure(error)
    }

    function Extract(): R
      requires Success?
    {
      value
    }
  }
}
