/** The optional-value datatype used wherever the client holds `null` or
    `undefined` in place of a value. */
module Wrappers {

  datatype Option<+T> = None | Some(value: T)
}
