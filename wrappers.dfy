/** The optional value used for every nullable column of the tables. */
module Wrappers {

  /** A missing value (a pandas NaN) is None. */
  datatype Option<+T> = None | Some(value: T) {

    /** The value if present, otherwise the given default. */
    function GetOr(default: T): T {
      match this
      case Some(v) => v
      case None => default
    }
  }
}
