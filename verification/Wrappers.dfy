/** A value that may be missing: Go's nil pointer, or a lookup that finds nothing. */
module Wrappers {
  datatype Option<+T> = None | Some(value: T)
}
