/** An optional value: a pointer that may be null, a handle that may be absent. */
module Wrappers {

  datatype Option<+T> = None | Some(value: T)
}
