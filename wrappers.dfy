/** The optional value used for the outcome of a parse. */
module Wrappers {
  datatype Option<+T> = None | Some(value: T)
}
