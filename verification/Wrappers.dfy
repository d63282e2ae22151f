/** A value that may be absent, as the source's nil pointers and second results say it. */
module Wrappers {
  datatype Option<T> = None | Some(value: T)
}
