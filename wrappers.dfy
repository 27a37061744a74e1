/** The optional-value datatype shared by the budget engine and the service worker. */
module Wrappers {

  /** `None` stands for a JavaScript value that is missing, `undefined` or not a finite number. */
  datatype Option<+T> = None | Some(value: T) {

    /** The wrapped value, or `default` when there is none (JavaScript's `x || default`). */
    function GetOr(default: T): T {
      match this
      case Some(v) => v
      case None => default
    }
  }
}
