/** Option and Result, used for dictionary lookups and for the exceptions the code raises. */
module Wrappers {

  datatype Option<T> = None | Some(value: T) {
    /** `x if x is not None else d`. */
    function GetOr(default: T): T {
      if Some? then value else default
    }
  }

  /** The outcome of an operation that may raise: a value, or the exception raised. */
  datatype Result<T, E> = Ok(value: T) | Err(error: E)
}
