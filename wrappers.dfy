/** An optional value: a JSON field that may be absent, or a number that may be NaN. */
module Wrappers {
  datatype Option<+T> = None | Some(value: T)
}
