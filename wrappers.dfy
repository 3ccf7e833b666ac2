/** Small shared datatypes. */
module Wrappers {
  /** An optional value; `None` stands for the sentinels the source uses
      (an infinite value, `usize::MAX`) before anything has been seen. */
  datatype Option<+T> = None | Some(value: T)
}
