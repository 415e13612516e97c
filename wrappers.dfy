/** The optional value used wherever the dashboard reads a field that may be
    missing (`info.get(key, None)`) or computes a value that may be undefined. */
module Wrappers {

  datatype Option<+T> = None | Some(value: T)
}
