/** Option type used for Python's `None`-or-value globals and dictionary lookups. */
module Wrappers {

  datatype Option<+T> = None | Some(value: T)
}
