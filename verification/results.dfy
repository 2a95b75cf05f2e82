/** Carriers for values that may be missing and for operations that may throw. */
module Results {

  /** A value that may be absent (JavaScript `undefined` where an argument is optional). */
  datatype Option<+T> = None | Some(value: T)

  /** The outcome of an operation that returns a value or throws an error. */
  datatype Result<+T, +E> = Success(value: T) | Failure(error: E) {

    predicate IsFailure() {
      Failure?
    }

    function PropagateFailure<U>(): Result<U, E>
      requires Failure?
    {
      Failure(error)
    }

    function Extract(): T
      requires Success?
    {
      value
    }
  }

  /** The outcome of a check that returns nothing or throws an error. */
  datatype Outcome<+E> = Pass | Fail(error: E)
}
