/** Failure-compatible wrappers shared by every module of the model. */
module Wrappers {

  /** A value that may be missing: JavaScript's `null`/`undefined` and optional fields. */
  datatype Option<+T> = None | Some(value: T) {
    function GetOr(default: T): T {
      match this
      case Some(v) => v
      case None => default
    }
  }

  /** The settlement of an operation that may throw: a value or the thrown object. */
  datatype Result<+T, +E> = Ok(value: T) | Err(error: E)

  /**
   * What a JavaScript `throw` can carry, as far as the application looks at it:
   * an `Error` with its message, the SyntaxError that `JSON.parse` throws on
   * malformed text (whose message is engine-specific), or a value that is not an
   * `Error` at all (the ProgressEvent a FileReader rejects with, for one).
   */
  datatype Thrown = Error(message: string) | MalformedJson | NonError
}
