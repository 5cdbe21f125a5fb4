/** The optional value used wherever the source returns `Option<T>`. */
module Wrappers {
  datatype Option<+T> = None | Some(value: T)
}
