/** A JavaScript value that may be absent (`undefined`, `null`, a missing field). */
module Wrappers {

  datatype Option<+T> = None | Some(value: T)
}
