/** The optional value used for lookups and parses that can come back empty. */
module Wrappers {

  datatype Option<+T> = None | Some(value: T)

}
