/** Failure-carrying datatypes shared by the whole model. */
module Wrappers {

  /** A value that may be absent (`null`/`undefined` in the frontend, `None` in the backend). */
  datatype Option<+T> = None | Some(value: T) {

    /** The carried value, or `default` when absent. */
    function GetOr(default: T): T {
      match this
      case Some(v) => v
      case None => default
    }
  }

  /** The outcome of an operation that may fail with an error of type `E`. */
  datatype Result<+R, +E> = Ok(value: R) | Err(error: E)
}
