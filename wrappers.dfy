/** Failure-carrying values for the places where the statistics job would raise. */
module Wrappers {

  datatype Option<+T> = None | Some(value: T)

}
