/** Wrappers shared by the model.
    `Option` stands for a value that may be missing: `None` plays the role of
    the NaN sentinel the Python code returns for a missing number. */
module Wrappers {

  datatype Option<+T> = None | Some(value: T)

  /** A value or an error, for operations of the source that raise. */
  datatype Result<+R, +E> = Success(value: R) | Failure(error: E)
}
