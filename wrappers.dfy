/** An optional value: a JavaScript property that may be absent (`undefined`). */
module Wrappers {
  datatype Option<+T> = None | Some(value: T)
}
