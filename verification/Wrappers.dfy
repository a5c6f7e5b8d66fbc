module Wrappers {
  /** A value that may be missing: Go's nil pointers and absent map entries. */
  datatype Option<+T> = None | Some(value: T)
}
