/** A value that may be missing: Go's nil, a second result, or an error. */
module Wrappers {
  datatype Option<T> = None | Some(value: T)
}
