/** The optional value used throughout the model in place of `null` / `undefined`. */
module Wrappers {
  datatype Option<+T> = None | Some(value: T)
}
