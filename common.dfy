/** Small failure-carrying datatypes shared by the other modules. */
module Common {

  /** A value that may be absent: Java's `null`, JavaScript's `undefined`. */
  datatype Option<+T> = None | Some(value: T)

  /** The outcome of an operation that either yields a value or raises an error. */
  datatype Result<+T, +E> = Ok(value: T) | Err(error: E)
}
