/** The optional value used for JavaScript's `undefined`/`null` and for a `NaN` number. */
module Wrappers {
  datatype Option<+T> = None | Some(value: T)
}
