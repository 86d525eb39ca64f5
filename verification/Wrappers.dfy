/** The absent-or-present value that stands for Lua's nil results. */
module Wrappers {
  datatype Option<+T> = None | Some(value: T)
}
