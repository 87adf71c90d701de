/** Failure-compatible optional value: the result of a parse that may fail or of
    a lookup that may fault. */
module Wrappers {

  datatype Option<+T> = None | Some(value: T)

}
