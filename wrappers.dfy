/** Option and Result, shared by every module of the model. */
module Wrappers {
  datatype Option<T> = None | Some(value: T)

  /** The outcome of a controller action: a value, or the reason it was refused. */
  datatype Result<T, E> = Ok(value: T) | Err(error: E)
}
