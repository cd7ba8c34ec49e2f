/** A value that may be absent: Go's nil pointer fields and failed parses. */
module Wrappers {
  datatype Option<+T> = None | Some(value: T)
}
