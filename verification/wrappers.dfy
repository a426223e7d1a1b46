/** A value that may be missing, used where the dashboard's table library yields no value. */
module Wrappers {

  datatype Option<+T> = None | Some(value: T)

}
