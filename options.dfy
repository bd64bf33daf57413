/** Optional values: a C function that returns NULL or a value, a stream read that may hit end of file. */
module Options {
  datatype Option<+T> = None | Some(value: T)
}
