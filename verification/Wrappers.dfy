/** Result shapes the model uses: an optional value, a value or an error, and the outcome of a store statement. */
module Wrappers {

  datatype Option<+T> = None | Some(value: T)

  /** A statement succeeds, or reports an error without or after having been applied. */
  datatype Outcome = Applied | Lost | AppliedWithError

  datatype Result<+T, +E> = Success(value: T) | Failure(error: E) {

    predicate IsFailure() {
      Failure?
    }

    function PropagateFailure<U>(): Result<U, E>
      requires Failure?
    {
      Failure(error)
    }

    function Extract(): T
      requires Success?
    {
      value
    }
  }
}
