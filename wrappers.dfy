/** Option, Result and Outcome: the error paths of the model. */
module Wrappers {

  datatype Option<+T> = None | Some(value: T)

  /** The value of an operation that returns something or raises. */
  datatype Result<+T, +E> = Ok(value: T) | Err(error: E)

  /** The value of an operation that returns nothing or raises. */
  datatype Outcome<+E> = Pass | Fail(error: E)
}

/** Byte strings, as read from and written to files. */
module Octets {

  type Byte = b: int | 0 <= b < 256

  type Bytes = seq<Byte>
}
