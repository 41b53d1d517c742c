/** Failure-carrying wrappers used by every module: Rust's `Option` and `Result`. */
module Common {

  datatype Option<+T> = None | Some(value: T)

  /** `Failure` stands for an `unwrap`/`expect` that panics in the source, or for an `Err` it returns. */
  datatype Result<+T, +E> = Success(value: T) | Failure(error: E)
}
