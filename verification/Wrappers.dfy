/** A value that may be missing: a null pointer, a lookup that fails, a call that raises or aborts. */
module Wrappers {
  datatype Option<T> = None | Some(value: T)
}
