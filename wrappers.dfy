/** Option, Result and Outcome: the explicit form of Python's `None`,
    raised exceptions and "raised or returned normally". */
module Wrappers {

  datatype Option<+T> = None | Some(value: T)

  /** A value, or the error the source would raise instead of returning. */
  datatype Result<+R, +E> = Success(value: R) | Failure(error: E)

  /** Returned normally (with no value), or raised an error. */
  datatype Outcome<+E> = Pass | Fail(error: E)
}
