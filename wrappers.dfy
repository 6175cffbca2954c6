/** Optional values: a JSON field or SQL column that may be absent or NULL. */
module Wrappers {

  datatype Option<+T> = None | Some(value: T)
}
