/** Python's `None`-or-value, used for nullable columns and for results that may be absent. */
module Wrappers {
  datatype Option<+T> = None | Some(value: T)
}
