/** Failure-compatible wrappers shared by the level loader and the ray caster. */
module Results {

  /** Rust's `Option<T>`: a cast either hits something or returns nothing. */
  datatype Option<+T> = None | Some(value: T)

  /** Rust's `Result<T, E>`: loading a level either yields a grid or an error message. */
  datatype Result<+T, +E> = Ok(value: T) | Err(error: E)
}
