/** The option type the other modules share: a Go pointer or map lookup that may be absent. */
module Wrappers {
  datatype Option<+T> = None | Some(value: T)
}
