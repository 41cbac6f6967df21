/** An optional value: a signal or field that may hold nothing. */
module Wrappers {
  datatype Option<T> = None | Some(value: T)
}
