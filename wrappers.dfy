/** The optional value the model uses wherever the program can fail. */
module Wrappers {
  datatype Option<+T> = None | Some(value: T)
}
