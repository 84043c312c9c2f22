/** Failure-compatible wrappers: `Option` for C#'s nullable values and
    `Result` for an operation that either returns or throws an exception. */
module Wrappers {

  datatype Option<+T> = None | Some(value: T) {

    predicate IsFailure() {
      None?
    }

    function PropagateFailure<U>(): Option<U>
      requires None?
    {
      None
    }

    function Extract(): T
      requires Some?
    {
      value
    }

    /** The C# `??` operator. */
    function GetOr(default: T): T {
      match this
      case Some(v) => v
      case None => default
    }
  }

  /** `Failure(message)` stands for an exception carrying `message`. */
  datatype Result<+R> = Success(value: R) | Failure(message: string) {

    predicate IsFailure() {
      Failure?
    }

    function PropagateFailure<U>(): Result<U>
      requires Failure?
    {
      Failure(message)
    }

    function Extract(): R
      requires Success?
    {
      value
    }
  }
}
