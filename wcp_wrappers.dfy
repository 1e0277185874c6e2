/** Failure-compatible wrappers used across the model: `Option` stands for a
    C pointer that may be NULL, `Result` for a return value paired with a
    GError out-parameter. */
module Wrappers {

  datatype Option<+T> = None | Some(value: T) {

    function GetOr(default: T): T {
      match this
      case Some(v) => v
      case None => default
    }
  }

  datatype Result<+R, +E> = Success(value: R) | Failure(error: E)
}
