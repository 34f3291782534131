/** Small optional-value wrapper shared by the other modules. */
module Wrappers {

  /** A value that may be absent (a missing lookup, an omitted argument, a JavaScript `null`). */
  datatype Option<+T> = None | Some(value: T)
}
