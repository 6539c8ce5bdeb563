// A value that may be missing; `None` also stands for a panic of the modelled code.
module Wrappers {
  datatype Option<+T> = None | Some(value: T)
}
