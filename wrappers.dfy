/** Optional values: a query argument that may be missing,
    a parameter that sqlite3 may fail to bind. */
module Wrappers {

  datatype Option<+T> = None | Some(value: T)

}
