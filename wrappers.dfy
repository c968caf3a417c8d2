/** The optional-value datatype used where the Python code returns `None`. */
module Wrappers {

  datatype Option<+T> = None | Some(value: T)
}
