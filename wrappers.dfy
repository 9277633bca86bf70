/** The optional value used where the source returns `Option`. */
module Wrappers {
  datatype Option<+T> = None | Some(value: T)
}
