/** Option and Result, used for PHP's `false`/missing values and for thrown exceptions. */
module Wrappers {

  datatype Option<+T> = None | Some(value: T) {
    function GetOr(default: T): T {
      match this
      case Some(v) => v
      case None => default
    }
  }

  datatype Result<+T, +E> = Ok(value: T) | Err(error: E)

  /** Pass or Fail, for steps that only change state or throw. */
  datatype Outcome<+E> = Pass | Fail(error: E)
}
