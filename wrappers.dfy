/** An optional value, for results the source signals with null. */
module Wrappers {
  datatype Option<+T> = None | Some(value: T)
}
