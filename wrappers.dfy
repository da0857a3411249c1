/** The optional value of the source's `T | null` and `T | undefined` types. */
module Wrappers {
  datatype Option<+T> = None | Some(value: T)
}
