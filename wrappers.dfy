/** The optional value used for `return;` versus `return e;` and for an absent else branch. */
module Wrappers {
  datatype Option<+T> = None | Some(value: T)
}
