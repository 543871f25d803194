/** The usual optional-value wrapper, used wherever the source tests a value for `undefined`/`null`. */
module Wrappers {
  datatype Option<+T> = None | Some(value: T)
}
