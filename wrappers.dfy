/** Python's `Optional[T]`: a value that may be `None`. */
module Wrappers {

  datatype Option<+T> = None | Some(value: T)
}
