/** Option and Result: the nullable values and the thrown-or-returned outcomes of the budget library. */
module Wrappers {

  /** A value that may be absent, as a C# nullable (`DateTime?`, `int?`, `string?`). */
  datatype Option<+T> = None | Some(value: T) {
    /** The value, or `default` when absent: C#'s `x ?? default`. */
    function GetOr(default: T): T {
      match this
      case Some(v) => v
      case None => default
    }
  }

  /** The outcome of a lookup that throws when nothing is found. */
  datatype Result<+R, +E> = Success(value: R) | Failure(error: E)
}
