/** Optional values: the model's rendering of Java's nullable references. */
module Wrappers {
  datatype Option<+T> = None | Some(value: T)
}
