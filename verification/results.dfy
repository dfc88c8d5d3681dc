/** Option and Result, the two sum types the crate's signatures are written in. */
module Results {

  /** Rust's `Option<T>`. */
  datatype Option<T> = None | Some(value: T)

  /** Rust's `Result<T, E>`: a computed value, or the error that stopped the computation. */
  datatype Result<T, E> = Ok(value: T) | Err(error: E)
}
