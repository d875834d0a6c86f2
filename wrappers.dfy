/** Option, the stand-in for a cell or a Series entry that may be missing (NaN). */
module Wrappers {

  datatype Option<+T> = None | Some(value: T) {

    /** The value, or `default` when missing: pandas' `fillna(default)` on one entry. */
    function GetOr(default: T): T {
      match this
      case Some(v) => v
      case None => default
    }
  }
}
