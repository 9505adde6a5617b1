/** Failure-compatible optional values, used wherever the program returns
    `None` (or an empty result) instead of raising. */
module Wrappers {

  /** `None` stands for Python's `None`: a value that could not be produced. */
  datatype Option<+T> = None | Some(value: T)
}
