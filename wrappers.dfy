/** The optional value used for server replies that may fail. */
module Wrappers {
  datatype Option<+T> = None | Some(value: T)
}
