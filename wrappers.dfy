/** The optional values of the model: a dictionary key that may be absent, a
    JSON field that may be `None`. */
module Wrappers {

  datatype Option<+T> = None | Some(value: T)
}
