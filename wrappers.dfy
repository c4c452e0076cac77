/** Optional values, used for absent dictionary keys and for operations that raise. */
module Wrappers {

  datatype Option<+T> = None | Some(value: T) {

    /** Python's `d.get(key, default)`: the value if present, otherwise the default. */
    function GetOr(default: T): T {
      match this
      case Some(v) => v
      case None => default
    }
  }
}
