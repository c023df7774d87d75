/** The "a value or nothing" and "a value or an error" idioms: `undefined`/`null` results and rejected promises. */
module Wrappers {

  datatype Option<+T> = None | Some(value: T) {

    /** The value, or `default` when there is none (JavaScript's `x ?? default`). */
    function GetOr(default: T): T {
      if Some? then value else default
    }
  }

  /** The outcome of a request or of a check: a value, or the error that took its place. */
  datatype Result<+T, +E> = Success(value: T) | Failure(error: E)
}
