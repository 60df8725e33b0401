/** The optional value used where the router has "nothing found" outcomes. */
module Wrappers {

  datatype Option<+T> = None | Some(value: T)
}
