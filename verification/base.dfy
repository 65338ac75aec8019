/** The two wrapper shapes used throughout: a value that may be absent, and a value that may be an error instead. */
module Base {
  datatype Option<+T> = None | Some(value: T)

  datatype Result<+T, +E> = Ok(value: T) | Err(error: E)
}
