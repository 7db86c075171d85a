/** Option and Result, the two failure-carrying shapes the rest of the model uses
    for Kotlin's nullable types and for `Result<T>` / thrown exceptions. */
module Wrappers {

  datatype Option<+T> = None | Some(value: T) {
    function GetOr(default: T): T {
      match this
      case Some(v) => v
      case None => default
    }
  }

  datatype Result<+T, +E> = Success(value: T) | Failure(error: E)

  /** Kotlin's `a ?: b` on two nullable values: the first one that is present. */
  function OrElse<T>(a: Option<T>, b: Option<T>): Option<T> {
    if a.Some? then a else b
  }
}
