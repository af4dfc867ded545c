/** A value that may be absent: a missing JSON field, an unset environment
    variable, a global the page has not populated yet. */
module Wrappers {

  datatype Option<+T> = None | Some(value: T) {

    /** The value, or `default` when absent. */
    function GetOr(default: T): T {
      match this
      case Some(v) => v
      case None => default
    }
  }
}
