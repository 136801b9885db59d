/** What the models share. */
module Wrappers {

  /** A pointer that may be 0, or a result that may be missing. */
  datatype Option<T> = None | Some(value: T)
}
