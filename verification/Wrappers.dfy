/** The optional value the readings and the protocols return. */
module Wrappers {
  datatype Option<+T> = None | Some(value: T)
}
