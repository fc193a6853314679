/** Optional values and error-carrying results shared by the services. */
module Wrappers {

  /** `undefined` / `null` (None) or a present value (Some). */
  datatype Option<+T> = None | Some(value: T) {

    /** `x || d`: the value when present, otherwise `d`. */
    function GetOr(d: T): (v: T) {
      match this
      case Some(x) => x
      case None => d
    }
  }

  /** A returned value (Ok) or a thrown `Error` with its message (Err). */
  datatype Result<+T> = Ok(value: T) | Err(message: string)
}
