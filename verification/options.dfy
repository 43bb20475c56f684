/** A value that may be absent: JavaScript's null/undefined, or a missing field. */
module Options {

  datatype Option<+T> = None | Some(value: T) {

    /** The value if present, otherwise the given default. */
    function GetOr(default: T): T {
      match this
      case Some(v) => v
      case None => default
    }
  }
}
