/** Failure-carrying wrappers shared by the other modules. */
module Results {

  /** An optional value: `None` where the Rust code returns `Option::None`. */
  datatype Option<+T> = None | Some(value: T)

  /**
   * A value or an error, as the Rust `Result<T, E>`; usable with `:-`, which
   * plays the part of Rust's `?`.
   */
  datatype Result<+T, +E> = Ok(value: T) | Err(error: E) {
    predicate IsFailure() {
      Err?
    }

    function PropagateFailure<U>(): Result<U, E>
      requires Err?
    {
      Err(error)
    }

    function Extract(): T
      requires Ok?
    {
      value
    }
  }
}
