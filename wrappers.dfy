/** The optional value used wherever the JavaScript code has `undefined`, `null` or "not found". */
module Wrappers {

  datatype Option<+T> = None | Some(value: T)
}
