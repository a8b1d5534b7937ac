/** Failure-carrying results used where the Rust code panics or unwraps. */
module Wrappers {

  /** A value that may be absent: `None` stands for a failed conversion. */
  datatype Option<+T> = None | Some(value: T)

  /** Either a value or the reason there is none. */
  datatype Result<+T, +E> = Ok(value: T) | Err(error: E)
}
