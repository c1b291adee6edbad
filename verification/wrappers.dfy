/** Optional values and error-carrying results shared by every module of the model. */
module Wrappers {

  /** A value that may be absent: `undefined`/`null` in JavaScript. */
  datatype Option<+T> = None | Some(value: T) {

    /** The wrapped value, or `default` when absent. */
    function GetOr(default: T): T {
      match this
      case Some(v) => v
      case None => default
    }
  }

  /** Either a value or an error; used for every early `return` with an error status. */
  datatype Result<+T, +E> = Ok(value: T) | Err(error: E)
}
