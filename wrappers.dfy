/** The optional value shared by every module: a JSON field that may be absent,
    a lookup that may miss, a reply that may carry no state. */
module Wrappers {
  datatype Option<T> = None | Some(value: T)
}
