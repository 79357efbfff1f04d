/** The usual optional value, used for the model's nil-able error field. */
module Wrappers {

  datatype Option<+T> = None | Some(value: T)
}
