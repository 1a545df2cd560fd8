/** Small failure-compatible helper types shared by every module. */
module Wrappers {

  /** An optional value: the source's `undefined`/missing argument, or a lookup miss. */
  datatype Option<+T> = None | Some(value: T) {

    /** The wrapped value, or `default` when there is none. */
    function GetOr(default: T): T {
      match this
      case Some(v) => v
      case None => default
    }
  }
}
