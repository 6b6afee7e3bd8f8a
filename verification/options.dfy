/** Optional values: how the model writes Python's `None`, and a dictionary
    key that is absent. */
module Options {

  datatype Option<+T> = None | Some(value: T) {

    /** The value if present, otherwise `default`: Python's `d.get(k, default)`. */
    function GetOr(default: T): (r: T)
      ensures Some? ==> r == value
      ensures None? ==> r == default
    {
      match this
      case Some(v) => v
      case None => default
    }
  }
}
