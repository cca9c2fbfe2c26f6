/** Option, used wherever the source returns `undefined` or `false` for "nothing". */
module Wrappers {
  datatype Option<+T> = None | Some(value: T)
}
