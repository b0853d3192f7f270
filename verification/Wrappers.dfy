/** A value or none: null pointers, and searches that fail. */
module Wrappers {
  datatype Option<+T> = None | Some(value: T)
}
