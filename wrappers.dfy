/** Option and exception-carrying results shared by every module. */
module Wrappers {

  datatype Option<+T> = None | Some(value: T) {
    function GetOr(default: T): T {
      match this
      case Some(v) => v
      case None => default
    }
  }

  /** The outcome of a Python call that may raise: its value, or the text of the exception. */
  datatype Result<+T> = Ok(value: T) | Raised(message: string)
}
