/** The optional value used where the source may find nothing (a missing element, a placeholder link). */
module Wrappers {
  datatype Option<+T> = None | Some(value: T)
}
