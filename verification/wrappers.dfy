/** The nothing-found sentinel of the store's lookups (Python's `Optional`). */
module Wrappers {

  datatype Option<+T> = None | Some(value: T)
}
