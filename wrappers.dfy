/** The optional value used for keys that may be absent and for TypeScript's `T | undefined`. */
module Wrappers {

  datatype Option<+T> = None | Some(value: T)
}
