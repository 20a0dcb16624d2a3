/** A value that may be absent: Java's null, or a lookup with no result. */
module Wrappers {
  datatype Option<T> = None | Some(value: T)
}
