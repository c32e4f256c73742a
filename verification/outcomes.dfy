/** Failure-carrying wrappers shared by the scoring stages. */
module Outcomes {

  /** A value that may be absent, as a missing attribute or form field is. */
  datatype Option<+T> = None | Some(value: T) {

    /** The value, or `default` when absent (Python's `getattr(h, name, default)`). */
    function GetOr(default: T): T
    {
      match this
      case Some(v) => v
      case None => default
    }
  }

  /** The outcome of one analysis stage: its value, or the text of the exception it raised. */
  datatype Stage<+T> = Ok(value: T) | Fail(message: string)
}
