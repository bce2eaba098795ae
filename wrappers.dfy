/** Optional values and the outcome of a call to the hosted backend. */
module Wrappers {

  /** A value that may be absent (JavaScript `null`). */
  datatype Option<+T> = None | Some(value: T) {
    function GetOr(default: T): T {
      match this
      case Some(v) => v
      case None => default
    }
  }

  /** What an awaited backend call resolves to: the returned data, or the
      `error` object (whose message the pages show verbatim). Exceptions
      thrown by the backend client are not modelled. */
  datatype Reply<+T> = Ok(value: T) | Failed(message: string)
}
