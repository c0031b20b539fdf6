/** Option and Result, plus the Python exceptions the modelled code can raise. */
module Wrappers {

  datatype Option<+T> = None | Some(value: T)

  datatype Result<+R, +E> = Success(value: R) | Failure(error: E)

  /** The exceptions of the hook core that are not caught by it:
      a constructor called with the wrong number of arguments (TypeError),
      a tuple unpacking of the wrong length or a bad decorator target (ValueError),
      and indexing an empty argument tuple (IndexError). */
  datatype PyError = TypeError | ValueError | IndexError
}
