/** The optional value used for Go's `(value, ok)` pairs, nil results and
    nil-or-error returns. */
module Wrappers {
  datatype Option<T> = None | Some(value: T)
}
