/** Option type for values that may be absent (a console line at end of input,
    an input that does not parse as an integer). */
module Wrappers {
  datatype Option<+T> = None | Some(value: T)
}
