/** The two result types shared by all modules: nullable values and calls that may raise. */
module Wrappers {
  /** A nullable column or value: `null` in the platform, `nil` in Judge0. */
  datatype Option<+T> = None | Some(value: T) {
    function GetOr(default: T): T {
      match this
      case Some(v) => v
      case None => default
    }
  }

  /** A call that returns a value or raises an exception with a message. */
  datatype Result<+T> = Ok(value: T) | Raised(message: string)
}
