/** Option and Result values shared by the storefront model. */
module Wrappers {

  /** A value that may be absent (`undefined`/`null` in the storefront). */
  datatype Option<+T> = None | Some(value: T) {
    function GetOr(default: T): T {
      match this
      case Some(v) => v
      case None => default
    }
  }

  /** The outcome of an operation that can throw or be rejected. */
  datatype Result<+R, +E> = Success(value: R) | Failure(error: E)
}
