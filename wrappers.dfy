/** Option and Result: absence and the exceptions the Python code raises. */
module Wrappers {

  datatype Option<+T> = None | Some(value: T) {
    function GetOr(default: T): T
    {
      match this
      case Some(v) => v
      case None => default
    }
  }

  /** `Err` stands for an exception raised by the modelled Python function. */
  datatype Result<+T, +E> = Ok(value: T) | Err(error: E)
}
