/** An optional value: a Go value that may be nil, or a (value, ok) pair. */
module Wrappers {
  datatype Option<+T> = None | Some(value: T)
}
