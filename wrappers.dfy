/** Python's `None`-or-value, used for optional configuration entries,
    attribute lookups and the session's retained response fields. */
module Wrappers {
  datatype Option<+T> = None | Some(value: T)
}
