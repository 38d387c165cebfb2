/** The optional-value datatype shared by the whole model: `None` stands for a JavaScript
    `undefined` (an absent header, body field or environment variable). */
module Wrappers {

  datatype Option<+T> = None | Some(value: T) {

    /** The value, or `default` when there is none. */
    function GetOr(default: T): T {
      match this
      case Some(v) => v
      case None => default
    }
  }
}
