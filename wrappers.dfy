/// Optional values, the shape of the application's `undefined`/`null` results.
module Wrappers {

  datatype Option<T> = None | Some(value: T)
}
