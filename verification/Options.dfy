/** Optional values, shared by all parts of the model. */
module Options {
  datatype Option<+T> = None | Some(value: T)
}
