/** Option and Result values shared by the modules of the model. */
module Wrappers {

  /** A value that may be absent (a null pointer or an unset index in the engine). */
  datatype Option<+T> = None | Some(value: T)

  /** The outcome of an operation whose C++ counterpart can fail or reach undefined behaviour. */
  datatype Result<+T, +E> = Success(value: T) | Failure(error: E)
}
