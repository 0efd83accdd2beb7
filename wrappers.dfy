// The nullable references and optional values of the source, as a value type.
module Wrappers {
  datatype Option<+T> = None | Some(value: T)
}
