/** Optional values, standing for JavaScript's `null` / `undefined`. */
module Optional {

  /** `None` is a missing (`null` or `undefined`) value. */
  datatype Option<T> = None | Some(value: T) {

    /** The nullish-coalescing operator `this ?? default`. */
    function GetOr(default: T): T {
      match this
      case Some(v) => v
      case None => default
    }
  }
}
