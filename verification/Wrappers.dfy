/** The result of a search or a partial operation. */
module Wrappers {
  datatype Option<+T> = None | Some(value: T)
}
