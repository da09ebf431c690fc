/** The optional value used wherever the original code holds `null` or
    `undefined`: a field the server may omit, a filter left blank, a route
    parameter that is absent. */
module Wrappers {

  datatype Option<+T> = None | Some(value: T) {

    /** Returns the value held by Some, or `default` when None. */
    function GetOr(default: T): T {
      match this
      case Some(v) => v
      case None => default
    }
  }
}
