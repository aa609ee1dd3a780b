/** The optional value the tracker's store hands back for a record that may be absent
    (`localStorage.getItem` returns null for a missing key). */
module Wrappers {

  datatype Option<+T> = None | Some(value: T) {

    /** The wrapped value, or `default` when there is none. */
    function GetOr(default: T): T {
      match this
      case Some(v) => v
      case None => default
    }
  }
}
