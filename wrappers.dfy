/** The Option type used for values the JavaScript code leaves `undefined`. */
module Wrappers {
  datatype Option<+T> = None | Some(value: T)
}
