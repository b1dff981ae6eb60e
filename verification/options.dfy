/** Optional values: a JavaScript field that may be absent, a Map lookup that may miss. */
module Options {

  datatype Option<T> = None | Some(value: T) {

    /** `x || d` for a lookup whose hits are never falsy. */
    function GetOr(default: T): T {
      match this
      case Some(v) => v
      case None => default
    }
  }
}
