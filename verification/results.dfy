/** Optional values and success-or-error results, the two shapes every
    parsing step of the model returns. */
module Results {

  datatype Option<+T> = None | Some(value: T)

  /** A Rust `Result<T, E>`: the value on success, the error otherwise. */
  datatype Result<+T, +E> = Ok(value: T) | Err(error: E)
}
