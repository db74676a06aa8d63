/** Small failure-carrying datatypes shared by every module of the model. */
module Wrappers {

  /** A value that may be absent (Python's Optional / None). */
  datatype Option<+T> = None | Some(value: T)

  /**
   * The outcome of a call into code outside the model (network, browser,
   * parser): either it returned a value or it raised an exception.
   */
  datatype Fetch<+T> = Raised | Got(value: T)
}
