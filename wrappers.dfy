/** Option and Result, the two failure-carrying datatypes the model uses for
    Python's None and for the exceptions the scripts raise or swallow. */
module Wrappers {

  datatype Option<+T> = None | Some(value: T) {
    function GetOr(default: T): T {
      match this
      case Some(v) => v
      case None => default
    }
  }

  datatype Result<+R, +E> = Ok(value: R) | Err(error: E)
}
