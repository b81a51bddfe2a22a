/** Option and Result values for the model's error paths: a `null` or `undefined`
    return becomes `None`, a thrown error becomes `Failure` carrying its message. */
module Wrappers {

  datatype Option<+T> = None | Some(value: T) {
    function GetOr(default: T): T {
      match this
      case Some(v) => v
      case None => default
    }
  }

  datatype Result<+T, +E> = Success(value: T) | Failure(error: E)
}
