/** An optional value, used where the component reads something that may be absent. */
module Wrappers {

  datatype Option<+T> = None | Some(value: T)
}
