/** Option and Result: the nil-or-value and value-or-error returns of the Go code. */
module Base {

  datatype Option<+T> = None | Some(value: T)

  datatype Result<+T, +E> = Success(value: T) | Failure(error: E)
}
