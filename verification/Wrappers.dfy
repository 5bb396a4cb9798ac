/** The usual stand-in for a nil pointer, an absent file or a missing map entry. */
module Wrappers {
  datatype Option<+T> = None | Some(value: T)
}
