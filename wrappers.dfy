/** The optional values used for "absent" field values and for field errors. */
module Wrappers {

  datatype Option<+T> = None | Some(value: T)
}
