module Wrappers {
  /** An optional value: the source's None, a missing key or a missing field. */
  datatype Option<+T> = None | Some(value: T)
}
