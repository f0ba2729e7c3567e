/** The optional value used wherever the Python code may produce `None`. */
module Wrappers {

  datatype Option<+T> = None | Some(value: T)
}
