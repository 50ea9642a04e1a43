/** Option and Result datatypes used across the model.
    Option stands for a Python value that may be None; Result for a value or
    the exception a guard raises. */
module Wrappers {

  datatype Option<+T> = None | Some(value: T)

  datatype Result<+T, +E> = Success(value: T) | Failure(error: E)
}
