/** The optional value returned by the position search (Python's `Optional`). */
module Wrappers {
  datatype Option<+T> = None | Some(value: T)
}
