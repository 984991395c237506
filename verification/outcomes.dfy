/** Option and Result, the two shapes the adapters use for "maybe absent" values and for
    exceptions raised by the Python code. */
module Outcomes {

  /** Python's `None` versus a present value. */
  datatype Option<+T> = None | Some(value: T)

  /** A value, or the exception that was raised instead of returning one. */
  datatype Result<+T, +E> = Success(value: T) | Failure(error: E)
}
