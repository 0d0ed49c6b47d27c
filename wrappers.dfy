/** An optional value, for fields the program keeps as `None` until set. */
module Wrappers {
  datatype Option<+T> = None | Some(value: T)
}
