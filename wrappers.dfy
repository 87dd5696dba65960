/** A missing value: `None` stands for a reading that is not a number. */
module Wrappers {
  datatype Option<+T> = None | Some(value: T)
}
