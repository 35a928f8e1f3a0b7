/** A value that may be missing: a pandas mean over no rows is NaN, modelled as None. */
module Wrappers {
  datatype Option<T> = None | Some(value: T)
}
