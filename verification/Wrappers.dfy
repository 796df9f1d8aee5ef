/** An optional value: a null pointer or a failure without a reason. */
module Wrappers {

  datatype Option<+T> = None | Some(value: T)
}
