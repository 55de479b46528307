/** Failure-carrying results shared by the dashboard model. */
module Wrappers {

  /** A value that may be absent: the model of `null`/`undefined` returns. */
  datatype Option<+T> = None | Some(value: T)

  /** Either a value or the error that the source would have thrown. */
  datatype Result<+R, +E> = Success(value: R) | Failure(error: E) {

    predicate IsFailure() {
      Failure?
    }

    function PropagateFailure<U>(): Result<U, E>
      requires Failure?
    {
      Failure(error)
    }

    function Extract(): R
      requires Success?
    {
      value
    }
  }

  /** The errors the source raises with `throw new Error(...)`. */
  datatype Error =
    | ContainerNotFound(key: string)   // ContainersCollection lookups
    | UnknownUnit(unit: string)        // Device unit conversion
}
