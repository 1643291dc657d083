/** The optional-value wrapper used for JavaScript values that may be absent. */
module Wrappers {

  /** `None` stands for `undefined` (or a value the handler cannot use). */
  datatype Option<+T> = None | Some(value: T)
}
