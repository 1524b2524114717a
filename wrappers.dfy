/** The optional value used wherever the JavaScript source uses `null`,
    `undefined` or a missing property. */
module Wrappers {
  datatype Option<+T> = None | Some(value: T)
}
