/** The optional value used for parse results and for Ruby's `nil`. */
module Wrappers {

  datatype Option<+T> = None | Some(value: T)
}
