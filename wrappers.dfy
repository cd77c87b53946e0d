/** The optional value used wherever the page's JavaScript yields `undefined` or `NaN`. */
module Wrappers {
  datatype Option<+T> = None | Some(value: T)
}
