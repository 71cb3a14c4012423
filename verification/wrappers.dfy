/** Optional values and success/failure results shared by every layer.
    `Option` stands for a Go pointer that may be nil (`*int32`, `*string`);
    `Result` stands for Go's `(value, error)` return pair. */
module Wrappers {

  datatype Option<+T> = None | Some(value: T) {

    /** The value, or `default` when absent (Go: `if p != nil { x = *p }`). */
    function GetOr(default: T): T {
      match this
      case Some(v) => v
      case None => default
    }
  }

  datatype Result<+R, +E> = Success(value: R) | Failure(error: E)
}
