/** Failure-compatible result types shared by every module of the model. */
module Wrappers {

  /** A value that may be absent: the model of a C# nullable (`T?`). */
  datatype Option<+T> = None | Some(value: T) {

    /** The carried value, or `default` when absent (the C# `??` operator). */
    function GetOr(default: T): T {
      match this
      case Some(v) => v
      case None => default
    }
  }

  /** The outcome of an operation whose C# counterpart may throw. */
  datatype Result<+R, +E> = Success(value: R) | Failure(error: E) {

    predicate IsFailure() {
      Failure?
    }

    function PropagateFailure<U>(): Result<U, E>
      requires Failure?
    {
      Failure(error)
    }

    function Extract(): R
      requires Success?
    {
      value
    }
  }
}
