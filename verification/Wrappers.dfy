/** Failure-carrying results shared by the components. */
module Wrappers {

  datatype Option<+T> = None | Some(value: T)

  /** A value, or what a thrown exception said. */
  datatype Result<+T, +E> = Success(value: T) | Failure(error: E) {
    predicate IsFailure() {
      Failure?
    }

    function PropagateFailure<U>(): Result<U, E>
      requires Failure?
    {
      Failure(error)
    }

    function Extract(): T
      requires Success?
    {
      value
    }
  }
}
