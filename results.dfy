/** The two failure-carrying types of the modelled code: Rust's `Option` and `Result`. */
module Results {

  /** An optional value. */
  datatype Option<+T> = None | Some(value: T)

  /** The outcome of an operation that can fail. */
  datatype Result<+T, +E> = Ok(value: T) | Err(error: E)
}
