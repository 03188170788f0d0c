/** The optional value used for "a result, or nothing". */
module Wrappers {

  datatype Option<+T> = None | Some(value: T) {

    /** The carried value, or `default` when there is none. */
    function GetOr(default: T): (r: T) {
      match this
      case Some(v) => v
      case None => default
    }
  }
}
