/** Optional values, standing in for PHP's `null` / "no row" results. */
module Wrappers {

  datatype Option<+T> = None | Some(value: T)
}
