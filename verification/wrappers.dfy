/** Optional values: a JavaScript `undefined` / missing key is `None`. */
module Wrappers {

  datatype Option<+T> = None | Some(value: T)
}
