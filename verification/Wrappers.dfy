/** The optional value used wherever the program says None. */
module Wrappers {
  datatype Option<+T> = None | Some(value: T)
}
