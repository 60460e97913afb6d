/** Optional values (C#'s nullable references and `T?`) and the outcome of a call that may throw. */
module Wrappers {

  /** `None` stands for C#'s `null`. */
  datatype Option<+T> = None | Some(value: T) {

    /** C#'s `x ?? other`. */
    function GetOr(other: T): T {
      match this
      case Some(v) => v
      case None => other
    }

    /** C#'s `x ?? other` where `other` is itself nullable. */
    function OrElse(other: Option<T>): Option<T> {
      if Some? then this else other
    }
  }

  /** The result of a call that either returns a value or throws. */
  datatype Outcome<+T> = Returns(value: T) | Throws
}
