/** Optional values: a missing cell (pandas NaN) or an absent selection. */
module Wrappers {

  datatype Option<+T> = None | Some(value: T)

}
