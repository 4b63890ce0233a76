/** Failure-compatible wrappers used for the source's None values and raised exceptions. */
module Wrappers {

  datatype Option<+T> = None | Some(value: T)

  /** A value or the exception that was raised instead; usable with `:-`. */
  datatype Result<+R, +E> = Success(value: R) | Failure(error: E) {
    predicate IsFailure() {
      Failure?
    }

    function PropagateFailure<U>(): Result<U, E>
      requires Failure?
    {
      Failure(error)
    }

    function Extract(): R
      requires Success?
    {
      value
    }

    function MapFailure<F>(wrap: E -> F): Result<R, F> {
      match this
      case Success(v) => Success(v)
      case Failure(e) => Failure(wrap(e))
    }
  }
}
