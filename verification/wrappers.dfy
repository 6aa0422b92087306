/** An optional value: what a JavaScript page reads back as `null` or a value. */
module Wrappers {
  datatype Option<+T> = None | Some(value: T)
}
