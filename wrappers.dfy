/** Failure-compatible wrappers used for the source's exceptions and null results. */
module Wrappers {

  datatype Option<+T> = None | Some(value: T)

  /** The value a C++ `throw std::runtime_error(message)` carries. */
  datatype Error = RuntimeError(message: string)

  /** The outcome of a call that either returns a value or throws. */
  datatype Result<+T> = Ok(value: T) | Err(error: Error)

  /** The outcome of a call that returns nothing or throws. */
  datatype Outcome = Pass | Fail(error: Error)
}
