/** Option, for the values JavaScript represents as `null` or `NaN`. */
module Wrappers {
  datatype Option<+T> = None | Some(value: T)
}
