/** The optional value used wherever the console reads something that may be
    `undefined` or `null`, or calls `JSON.parse`, which may throw. */
module Wrappers {

  datatype Option<+T> = None | Some(value: T) {

    /** The value, or `default` when there is none. */
    function GetOr(default: T): T {
      match this
      case Some(v) => v
      case None => default
    }
  }
}
