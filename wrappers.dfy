/** The optional value that stands for Python's `None` in the node's fields. */
module Wrappers {
  datatype Option<+T> = None | Some(value: T)
}
