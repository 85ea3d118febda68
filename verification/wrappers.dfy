/** Option and Result types shared by the whole model. */
module Wrappers {

  /** A value that may be absent: an `undefined` field or a `null` document. */
  datatype Option<+T> = None | Some(value: T) {
    /** The value, or `default` when absent (a schema default). */
    function GetOr(default: T): T {
      if Some? then value else default
    }
  }

  /** Either a value or an error. */
  datatype Result<+T, +E> = Ok(value: T) | Err(error: E)

  /** What a call that may throw gives back: its value, or the message of the error it threw. */
  type Try<T> = Result<T, string>
}
