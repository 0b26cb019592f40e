/** The optional value used where the source has null, None or a missing dictionary key. */
module Wrappers {
  datatype Option<+T> = None | Some(value: T)
}
