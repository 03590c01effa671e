/** The one value shape that every part of the model shares. */
module Wrappers {
  datatype Option<+T> = None | Some(value: T)
}
