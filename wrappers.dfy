/** Option and Result: null-able values and operations that can raise. */
module Wrappers {

  /** A C# reference or `Nullable<T>` value: `None` stands for `null`. */
  datatype Option<+T> = None | Some(value: T)

  /** The outcome of a call that either returns a value or raises an exception. */
  datatype Result<+R, +E> = Success(value: R) | Failure(error: E)
}
