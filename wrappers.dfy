/** Result and option types shared by the other modules. */
module Wrappers {

  /** The value of an operation that either produces a `T` or raises an `E`. */
  datatype Result<+T, +E> = Ok(value: T) | Err(error: E)

  /** A value that may be absent (a file that may not exist). */
  datatype Option<+T> = None | Some(value: T)
}
