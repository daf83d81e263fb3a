module Wrappers {

  datatype Option<+T> = None | Some(value: T)

  /** A value, or the error that stands for a thrown exception or a failed assertion. */
  datatype Result<+T, +E> = Success(value: T) | Failure(error: E) {

    predicate IsFailure() {
      Failure?
    }

    function PropagateFailure<U>(): Result<U, E>
      requires Failure?
    {
      Failure(error)
    }

    function Extract(): T
      requires Success?
    {
      value
    }
  }
}
