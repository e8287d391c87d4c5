/** The optional value used for lookups that may miss and for rasterization that may fail. */
module Wrappers {
  datatype Option<+T> = None | Some(value: T)
}
