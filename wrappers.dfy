/** Failure-carrying values used where the source returns `null` or throws. */
module Wrappers {

  /** A value that may be absent: the model of TypeScript's `T | null` and of optional fields. */
  datatype Option<+T> = None | Some(value: T) {
    /** The value, or `default` when absent (TypeScript's `x ?? default`). */
    function GetOr(default: T): T {
      match this
      case Some(v) => v
      case None => default
    }
  }

  /** The outcome of an operation that either succeeds or raises an error. */
  datatype Result<+R, +E> = Success(value: R) | Failure(error: E)

  /** What reading a file does: its text, or a thrown error with its message. */
  datatype ReadOutcome = ReadOk(content: string) | ReadFailed(reason: string)
}
