/** A value that may be absent, as the source's None, and the outcome of a call that may raise. */
module Options {
  datatype Option<+T> = None | Some(value: T)

  datatype Result<+T, +E> = Ok(value: T) | Err(error: E)
}
