/** A value that may be absent: a YAML key that is missing or null, a cookie
    that was not sent, a page whose data has not arrived yet. */
module Optional {

  datatype Option<+T> = None | Some(value: T) {

    /** The wrapped value, or `default` when there is none (JavaScript's `x ?? d`). */
    function GetOr(default: T): T {
      match this
      case Some(v) => v
      case None => default
    }
  }
}
