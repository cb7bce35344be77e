/** Option and Result, the shapes JavaScript expresses with `null`, `NaN`
    and thrown errors. */
module Wrappers {

  /** `None` stands for JavaScript's `null`/`undefined`, and for `NaN` where
      a number is expected. */
  datatype Option<+T> = None | Some(value: T) {
    function GetOr(default: T): T {
      match this
      case Some(v) => v
      case None => default
    }
  }

  /** A value, or the message of an error that the source reports. */
  datatype Result<+T> = Success(value: T) | Failure(error: string)
}
