/** The optional value used wherever the source has `nil`. */
module Wrappers {
  datatype Option<T> = None | Some(value: T)
}
