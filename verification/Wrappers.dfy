/** The option type used wherever the source returns nil, a missing map entry or an error. */
module Wrappers {

  datatype Option<+T> = None | Some(value: T)
}
