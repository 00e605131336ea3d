/** Optional values and pass/fail outcomes shared by the grid model. */
module Wrappers {

  /** A value that may be absent: a missing dictionary key, a click outside the axes. */
  datatype Option<+T> = None | Some(value: T)

  /** The outcome of an operation that either completes or raises an error of type E. */
  datatype Outcome<+E> = Pass | Fail(error: E)
}
