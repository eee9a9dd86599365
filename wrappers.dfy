/** The optional value used where the source uses Python's None. */
module Wrappers {
  datatype Option<+T> = None | Some(value: T)
}
