/** Option and Result, the failure-carrying values used throughout the model. */
module Wrappers {

  datatype Option<+T> = None | Some(value: T) {
    function GetOr(default: T): T {
      match this
      case Some(v) => v
      case None => default
    }
  }

  /** A Python call either returns a value or raises; `Failure` carries what it raises. */
  datatype Result<+R, +E> = Success(value: R) | Failure(error: E)
}
