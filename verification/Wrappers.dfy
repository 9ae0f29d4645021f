/** The two value-carrying wrappers every module shares. */
module Wrappers {

  datatype Option<+T> = None | Some(value: T)

  /** `Failure` stands for the exception the Python code raises. */
  datatype Result<+R, +E> = Success(value: R) | Failure(error: E)
}
