/** The optional value used for weak references (a missile's target, the
    nearest enemy, a first match). */
module Wrappers {
  datatype Option<T> = None | Some(value: T)
}
