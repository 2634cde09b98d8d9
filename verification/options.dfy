/** Optional values: JavaScript's `undefined` result or argument becomes `None`. */
module Options {

  datatype Option<+T> = None | Some(value: T)
}
