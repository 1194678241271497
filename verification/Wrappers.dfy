/** Results that may be absent: the repository's nil pointers and error returns. */
module Wrappers {
  datatype Option<+T> = None | Some(value: T)
}
