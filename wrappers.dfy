/**
 * Failure-carrying values shared by the modules of this model: an optional
 * value, and the outcome of an operation that the Java code ends by throwing.
 */
module Wrappers {

  datatype Option<+T> = None | Some(value: T) {
    function GetOr(default: T): T {
      match this
      case Some(v) => v
      case None => default
    }
  }

  /** The error a Java method signals by throwing. */
  datatype Error =
    | IllegalArgument(detail: string)
    | IndexOutOfBounds(detail: string)
    | RuntimeError(detail: string)
    | NoSuchElement
    | NullPointer
    | ClassCast

  datatype Result<+T> = Ok(value: T) | Err(error: Error)

  /** The outcome of a void Java method that may throw. */
  datatype Outcome = Pass | Fail(error: Error)
}
