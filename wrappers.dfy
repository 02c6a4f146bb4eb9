/** Stand-ins for C# null and for constructors that throw. */
module Wrappers {

  /** A nullable reference: `None` plays the part of C# `null`. */
  datatype Option<+T> = None | Some(value: T) {
    /** The C# `x ?? fallback` operator. */
    function GetOr(fallback: T): T {
      match this
      case Some(v) => v
      case None => fallback
    }
  }

  /** Either a value or the exception that would have been thrown instead. */
  datatype Result<+R, +E> = Success(value: R) | Failure(error: E)
}
