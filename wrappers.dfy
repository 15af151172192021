/** A value that may be missing: stands for a JavaScript `undefined` or an
    omitted optional argument. */
module Wrappers {

  datatype Option<+T> = None | Some(value: T)
}
