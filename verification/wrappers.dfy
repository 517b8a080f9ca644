/** Option and Result, the failure-compatible datatypes the model uses for
    lookups that may find nothing and for operations that raise in Python. */
module Wrappers {

  datatype Option<+T> = None | Some(value: T)

  /** A value or the error the Python code would raise instead. */
  datatype Result<+R, +E> = Success(value: R) | Failure(error: E) {

    predicate IsFailure() {
      Failure?
    }

    function PropagateFailure<U>(): Result<U, E>
      requires Failure?
    {
      Failure(error)
    }

    function Extract(): R
      requires Success?
    {
      value
    }
  }
}
