/** A value that may be absent: None stands for JavaScript's NaN or undefined. */
module Wrappers {
  datatype Option<+T> = None | Some(value: T)
}
