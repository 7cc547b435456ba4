/** Option and Result: the model's stand-ins for Python's None and for a raised exception. */
module Wrappers {

  datatype Option<+T> = None | Some(value: T)

  /** Success carries a value; Failure carries the exception that would have been raised. */
  datatype Result<+T, +E> = Success(value: T) | Failure(error: E) {

    predicate IsFailure() {
      Failure?
    }

    function PropagateFailure<U>(): Result<U, E>
      requires Failure?
    {
      Failure(error)
    }

    function Extract(): T
      requires Success?
    {
      value
    }
  }
}
