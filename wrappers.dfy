/** Option type shared by the model's lookups that may find nothing. */
module Wrappers {

  datatype Option<+T> = None | Some(value: T)
}
