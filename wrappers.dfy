/** The optional value used wherever the application keeps `None` or a value. */
module Wrappers {
  datatype Option<+T> = None | Some(value: T)
}
