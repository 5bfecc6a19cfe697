/** The nullable column of the modelled tables. */
module Wrappers {
  datatype Option<+T> = None | Some(value: T)
}
