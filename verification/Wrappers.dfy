/** The one general-purpose datatype of the project: null values, None results and absent values. */
module Wrappers {
  datatype Option<+T> = None | Some(value: T)
}
