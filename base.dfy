/** Option and Result values shared by every module of the model. */
module Base {

  datatype Option<+T> = None | Some(value: T)

  /** A computation that either returns a value or raises an exception of kind `E`. */
  datatype Result<+T, +E> = Ok(value: T) | Raise(exc: E)
}
