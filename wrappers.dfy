/** The optional value used wherever the source accepts `None` or reads a key
    that may be missing from a record. */
module Wrappers {

  datatype Option<+T> = None | Some(value: T) {

    /** `value if value is not None else default`, or `d.get(key, default)`. */
    function GetOr(default: T): T {
      match this
      case Some(v) => v
      case None => default
    }
  }
}
