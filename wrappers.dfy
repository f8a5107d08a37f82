/** The optional value the JavaScript source expresses with `null` and `undefined`. */
module Wrappers {
  datatype Option<+T> = None | Some(value: T)
}
