/** Option and Result values used for nullable fields and for the outcome of remote calls. */
module Wrappers {

  /** A nullable value: `null`/`undefined` in the source is `None`. */
  datatype Option<+T> = None | Some(value: T) {
    function GetOr(default: T): T {
      match this
      case Some(v) => v
      case None => default
    }
  }

  /** The outcome of an awaited remote call: the data, or the error the client library reported. */
  datatype Result<+R, +E> = Success(value: R) | Failure(error: E)
}
