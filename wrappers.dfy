/** The optional value used for store lookups that may find nothing and for headers that may be absent. */
module Wrappers {
  datatype Option<+T> = None | Some(value: T)
}
