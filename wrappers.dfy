/** The optional value used where the engine holds `null`. */
module Wrappers {
  datatype Option<+T> = None | Some(value: T)
}
