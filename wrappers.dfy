/** Option and Result: the nullable references and the thrown exceptions of the modelled code. */
module Wrappers {

  /** A reference that may be null: `None` is null. */
  datatype Option<+T> = None | Some(value: T)

  /** A call that either returns a value or throws `error`. */
  datatype Result<+T, +E> = Success(value: T) | Failure(error: E)
}
