/** The optional value used wherever the dashboard reads something that may be
    `undefined` or `null`: a missing attribute, a missing selection, a failed
    request. */
module Wrappers {

  datatype Option<+T> = None | Some(value: T) {

    /** The value, or `default` when there is none. */
    function GetOr(default: T): T {
      match this
      case Some(v) => v
      case None => default
    }
  }
}
