/** A value that may be absent: a key the caller left out, an empty jQuery set. */
module Wrappers {
  datatype Option<+T> = None | Some(value: T)
}
