/** Failure-compatible wrappers used across the model: Rust's `Option` and the
    outcome of an operation that either succeeds or reports an error. */
module Options {

  datatype Option<+T> = None | Some(value: T)

  datatype Outcome<+E> = Pass | Fail(error: E)
}
