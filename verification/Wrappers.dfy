/** What may be absent, and the ids the database hands out. */
module Wrappers {
  datatype Option<+T> = None | Some(value: T)

  type Id = nat
}
