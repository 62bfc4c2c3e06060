/** A value that may be absent: Go's nil pointers and "not found" answers. */
module Wrappers {
  datatype Option<+T> = None | Some(value: T)
}
