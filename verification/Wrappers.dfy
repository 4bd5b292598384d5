/** Success-or-failure values shared by the models; they stand for exceptions and for absent values. */
module Wrappers {
  datatype Option<+T> = None | Some(value: T)

  datatype Result<+T, +E> = Ok(value: T) | Err(error: E)
}
