/** The optional value used wherever the handler may find nothing (a missing
    node, a label that is not a number) or gives up (an exception it swallows). */
module Wrappers {

  datatype Option<+T> = None | Some(value: T) {

    /** The wrapped value, or `default` when there is none. */
    function GetOr(default: T): T {
      match this
      case Some(v) => v
      case None => default
    }
  }
}
