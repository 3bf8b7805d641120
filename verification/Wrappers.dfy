/** Result types shared by the models. */
module Wrappers {
  datatype Option<+T> = None | Some(value: T)

  /** A committed transaction's value, or the error that rolled it back. */
  datatype Result<+T, +E> = Ok(value: T) | Err(error: E)
}
