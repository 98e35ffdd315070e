/** A value that may be absent: a JSON field the client left out, or a lookup that found nothing. */
module Wrappers {
  datatype Option<+T> = None | Some(value: T) {
    /** The value when present, `default` otherwise. */
    function GetOr(default: T): T {
      match this
      case Some(v) => v
      case None => default
    }
  }
}
