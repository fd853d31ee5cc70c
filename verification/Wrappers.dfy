/** The Option and Result datatypes shared by every module. */
module Wrappers {
  datatype Option<+T> = None | Some(value: T)

  /** A Failure is an exception of the program: inside a transaction it also means a rollback. */
  datatype Result<+T, +E> = Success(value: T) | Failure(error: E)
}
