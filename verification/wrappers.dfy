/** The optional value used for nullable columns, optional query parameters and
    parses that may fail. */
module Wrappers {

  datatype Option<+T> = None | Some(value: T)
}
