/** Option and Result, as the source's `Option<T>` and `Result<T, E>` are used throughout. */
module Wrappers {
  datatype Option<+T> = None | Some(value: T)
  {
    /** `unwrap_or`. */
    function GetOr(default: T): T
    {
      if Some? then value else default
    }
  }

  datatype Result<+T, +E> = Ok(value: T) | Err(error: E)
}
