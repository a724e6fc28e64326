/** The optional value used for lookups, fetch outcomes and error messages. */
module Wrappers {

  datatype Option<+T> = None | Some(value: T)
}
