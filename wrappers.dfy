/** The conventional Option datatype, used for values the page may not have yet. */
module Wrappers {
  datatype Option<+T> = None | Some(value: T)
}
