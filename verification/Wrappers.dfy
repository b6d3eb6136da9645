/** Optional values, standing for JavaScript's `undefined` in the sidebar's props and state. */
module Wrappers {

  datatype Option<+T> = None | Some(value: T)
}
