/** The optional value used wherever the client may or may not hold something. */
module Wrappers {
  datatype Option<+T> = None | Some(value: T)
}
