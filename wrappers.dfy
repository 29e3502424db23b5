/** Optional values and error-or-value results, used for the source's
    `undefined`/`null` fields and for its thrown errors. */
module Wrappers {

  datatype Option<+T> = None | Some(value: T) {
    /** The stored value, or `default` when there is none (JavaScript's `x || default`
        on a field that is either set or missing). */
    function GetOr(default: T): T {
      match this
      case Some(v) => v
      case None => default
    }
  }

  /** Either the operation's value or the message of the error it throws. */
  datatype Result<+R> = Ok(value: R) | Err(error: string)
}
