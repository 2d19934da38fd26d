/** The optional value that stands for the port's `Option`. */
module Wrappers {
  datatype Option<+T> = None | Some(value: T)
}
