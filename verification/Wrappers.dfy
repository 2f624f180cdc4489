/** What several components share. */
module Wrappers {

  /** A value that may be missing. */
  datatype Option<T> = None | Some(value: T)

  type Byte = b: int | 0 <= b < 256
}
