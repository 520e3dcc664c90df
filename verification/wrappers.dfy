/** Failure-carrying wrappers shared by every module of the model. */
module Wrappers {

  /** Python's optional value: `None` or a present value. */
  datatype Option<+T> = None | Some(value: T) {
    function GetOr(default: T): T {
      match this
      case Some(v) => v
      case None => default
    }
  }

  /** The outcome of a Python call that may raise an exception nobody catches. */
  datatype Outcome<+T> = Returns(value: T) | Raises
}
