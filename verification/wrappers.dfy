/** The optional values the page script meets everywhere: an attribute that
    `getAttribute` may return as null, a storage key that may be absent. */
module Wrappers {

  datatype Option<+T> = None | Some(value: T) {

    /** Returns the value held in Some or a default value if None */
    function GetOr(default: T): T {
      match this
      case Some(v) => v
      case None => default
    }
  }
}
