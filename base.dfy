/** Option and Result, shared by every module of the model. */
module Base {

  /** An optional value, as Rust's Option. */
  datatype Option<+T> = None | Some(value: T) {

    /** The wrapped value, or `default` when there is none (Rust's `unwrap_or`). */
    function GetOr(default: T): T {
      match this
      case Some(v) => v
      case None => default
    }
  }

  /** A value or an error, as Rust's Result. */
  datatype Result<+T, +E> = Ok(value: T) | Err(error: E) {

    /** Forgets the error (Rust's `.ok()`). */
    function ToOption(): Option<T> {
      match this
      case Ok(v) => Some(v)
      case Err(_) => None
    }
  }
}
