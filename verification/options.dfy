/** Optional values: `None` stands for a JSON field that is absent, `null` or `undefined`. */
module Options {

  datatype Option<+T> = None | Some(value: T) {

    /** The value when present, otherwise `default`. */
    function GetOr(default: T): T {
      match this
      case Some(v) => v
      case None => default
    }
  }
}
