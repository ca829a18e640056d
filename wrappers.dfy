/**
  The optional result of a sphere test: `None` stands where the JavaScript
  source returns NaN for "no intersection".
 */
module Wrappers {
  datatype Option<+T> = None | Some(value: T)
}
