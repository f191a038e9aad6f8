/** Option and Result: JavaScript's `undefined`/`null` and thrown errors made explicit. */
module Wrappers {

  /** An absent (`undefined`/`null`) or present value. */
  datatype Option<+T> = None | Some(value: T) {
    function GetOr(default: T): T {
      match this
      case Some(v) => v
      case None => default
    }
  }

  /** The value of a call that either returns or throws. */
  datatype Result<+R, +E> = Ok(value: R) | Err(error: E)
}
