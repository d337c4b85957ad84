/** Rust's `Option<T>` and `Result<(), E>`, the two failure-carrying types the
    signing bot uses. */
module Results {

  /** `Option<T>`: `None` or `Some(value)`. */
  datatype Option<+T> = None | Some(value: T)

  /** `Result<(), E>`: a check either passes (`Ok(())`) or fails with an error value. */
  datatype Result<+E> = Ok | Err(error: E)
}
