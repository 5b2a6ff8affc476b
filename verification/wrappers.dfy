/** Optional values: an `Option<&T>` query item or a component that an entity may lack. */
module Wrappers {
  datatype Option<+T> = None | Some(value: T)
}
