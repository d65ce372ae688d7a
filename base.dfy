/** Small value wrappers shared by the other modules. */
module Base {

  /** A value that may be absent: an omitted request field, a `null` result. */
  datatype Option<T> = None | Some(value: T)

  /** The outcome of an operation that may throw. */
  datatype Result<T, E> = Ok(value: T) | Err(error: E)
}
