/** Optional values (pkg/optional). `Unwrap` is reading `.value`, which Dafny only allows on a `Some`. */
module Optional {

  datatype Option<+T> = None | Some(value: T) {

    /** The value, or the given fallback when there is none. */
    function UnwrapOr(fallback: T): T {
      match this
      case None => fallback
      case Some(v) => v
    }
  }
}
