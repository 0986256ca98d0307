/** Python's `None`-or-value, as used for an optional base class and an optional row. */
module Wrappers {

  datatype Option<+T> = None | Some(value: T)
}
