/** A nullable value: PHP properties that start out as `null`. */
module Wrappers {

  datatype Option<+T> = None | Some(value: T)
}
