/** The conventional Some/None datatype. */
module Wrappers {

  datatype Option<+T> = None | Some(value: T)

}
