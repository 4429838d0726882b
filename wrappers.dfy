/** The optional value the source writes as `Optional[str]` / `None`. */
module Wrappers {

  datatype Option<T> = None | Some(value: T)
}
