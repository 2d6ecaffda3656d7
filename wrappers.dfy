/** The optional value used wherever the engine returns `null` or a NaN. */
module Wrappers {
  datatype Option<+T> = None | Some(value: T)
}
