/** The one generic container the whole project shares. */
module Wrappers {
  datatype Option<+T> = None | Some(value: T)
}
