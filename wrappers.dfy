/** Option, Result and Outcome: the model's stand-ins for C# nullable values and thrown exceptions. */
module Wrappers {

  datatype Option<+T> = None | Some(value: T) {
    /** The value, or `default` when absent (C#'s `??`). */
    function GetOr(default: T): T {
      match this
      case Some(v) => v
      case None => default
    }
  }

  /** A value, or the error that the C# code would have thrown. */
  datatype Result<+T, +E> = Ok(value: T) | Err(error: E)

  /** A check that passes, or the error it would have thrown. */
  datatype Outcome<+E> = Pass | Fail(error: E)
}
