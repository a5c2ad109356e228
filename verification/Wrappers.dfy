/** Result types shared by the components. */
module Wrappers {

  datatype Option<+T> = None | Some(value: T)

  /** The outcome of an operation that the program ends with a value or by raising. */
  datatype Result<+T, +E> = Ok(value: T) | Err(error: E)
}
