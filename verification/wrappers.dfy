/** The optional value used for JavaScript's `undefined` / `null` and for absent headers. */
module Wrappers {
  datatype Option<+T> = None | Some(value: T) {
    /** The `??` operator: the value if present, otherwise the default. */
    function GetOr(default: T): T {
      match this
      case Some(v) => v
      case None => default
    }
  }
}
