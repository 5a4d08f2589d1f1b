/** Optional values, the model's counterpart of Python's `None`. */
module Wrappers {

  datatype Option<+T> = None | Some(value: T)

  /** A check that either passes or fails with a message (a raised exception in the source). */
  datatype Checked<+E> = Pass | Fail(error: E)
}
