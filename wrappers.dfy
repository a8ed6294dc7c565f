/** The optional value used for the results of operating-system queries that may fail. */
module Wrappers {

  datatype Option<+T> = None | Some(value: T)
}
