/** Optional values: Kotlin's nullable results (`T?`) and the `?:` default operator. */
module Wrappers {

  datatype Option<+T> = None | Some(value: T) {

    /** The Elvis operator `this ?: default`. */
    function GetOr(default: T): T
    {
      match this
      case Some(v) => v
      case None => default
    }
  }
}
