/** Optional values and validation outcomes, shared by the clinic modules. */
module Wrappers {

  /** A value that may be unset (the ERP's `False` for an empty field). */
  datatype Option<T> = None | Some(value: T)

  /** The result of a validation: it passes, or it raises an error carrying a message. */
  datatype Outcome<E> = Pass | Fail(error: E)
}
