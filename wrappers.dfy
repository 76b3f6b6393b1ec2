/** A value that may be absent, as an optional property or an optional result. */
module Wrappers {
  datatype Option<T> = None | Some(value: T)
}
