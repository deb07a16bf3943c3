/** An optional value: a form field or database column that may be absent. */
module Wrappers {
  datatype Option<T> = None | Some(value: T)
}
