/** The two result types every service model uses. */
module Wrappers {
  datatype Option<+T> = None | Some(value: T)

  /** The source throws a `BusinessException` or a Nest exception; here the error is returned. */
  datatype Result<+T, +E> = Ok(value: T) | Err(error: E)
}
