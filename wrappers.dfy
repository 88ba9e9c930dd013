/** Plain wrappers for the library's optional values and for the errors it raises. */
module Wrappers {

  datatype Option<+T> = None | Some(value: T) {
    function GetOr(default: T): T {
      match this
      case Some(v) => v
      case None => default
    }
  }

  /** `Failure` carries the text of the exception the library raises. */
  datatype Result<+R, +E> = Success(value: R) | Failure(error: E)
}
