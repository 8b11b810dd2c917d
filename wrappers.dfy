/** The optional value used for JavaScript's `undefined`/`null` and for
    parsers that may fail (a `NaN` date, a `parseInt` with no digits). */
module Wrappers {
  datatype Option<+T> = None | Some(value: T) {
    function GetOr(default: T): T {
      match this
      case Some(v) => v
      case None => default
    }
  }
}
