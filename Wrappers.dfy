/** An optional value: a parse that may fail, an error message that may be absent. */
module Wrappers {
  datatype Option<+T> = None | Some(value: T)
}
