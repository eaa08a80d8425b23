/** Option and Result values used across the model. */
module Wrappers {

  /** A value that may be missing: a form field or JSON member that was not sent, a score not computed. */
  datatype Option<+T> = None | Some(value: T) {

    /** The value, or `default` when there is none (Python's `dict.get(key, default)`). */
    function GetOr(default: T): T
    {
      match this
      case Some(v) => v
      case None => default
    }
  }

  /** The outcome of a call that may raise: its value, or the message `str(e)` of the exception. */
  datatype Result<+T> = Ok(value: T) | Err(message: string)
}
