/** Option and Result, used for Go's `nil`-or-value and `(value, error)` returns. */
module Wrappers {
  datatype Option<+T> = None | Some(value: T)

  datatype Result<+T, +E> = Success(value: T) | Failure(error: E)
}
