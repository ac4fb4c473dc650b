/** Failure-carrying results shared by every module of the storefront model. */
module Wrappers {

  datatype Option<+T> = None | Some(value: T) {
    function GetOr(default: T): T {
      match this
      case Some(v) => v
      case None => default
    }
  }

  /** The value of a call that completes, or the message of the error it throws. */
  datatype Result<+R> = Success(value: R) | Failure(error: string)
}
