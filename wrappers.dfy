/** Option and Result types for the ledger model, and the Python exceptions the core can raise. */
module Wrappers {

  datatype Option<T> = None | Some(value: T)

  /** The Python exceptions a core operation can raise on well-typed arguments. */
  datatype PyError =
    | IndexError   // a negative index past the start of a list (`chain[-2]` on a one-block chain)
    | TypeError    // a call that omits a required positional argument

  datatype Result<T> = Success(value: T) | Failure(error: PyError)
}
