/** Optional values and results, standing in for JavaScript's null/undefined and thrown errors. */
module Wrappers {

  datatype Option<T> = None | Some(value: T) {

    /** `x ?? d` and `x || d` for a value that is either present or missing. */
    function GetOr(default: T): T {
      match this
      case Some(v) => v
      case None => default
    }
  }

  datatype Result<T, E> = Ok(value: T) | Err(error: E)
}
