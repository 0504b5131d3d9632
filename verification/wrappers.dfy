/** The optional-value datatype shared by every module of the model.
    `None` stands for a JavaScript `undefined` (an absent environment
    variable, a missing body field) or for `NaN` where a number is parsed. */
module Wrappers {

  datatype Option<+T> = None | Some(value: T) {

    /** Returns the value held by `Some`, or `default` for `None`. */
    function GetOr(default: T): (r: T)
      ensures Some? ==> r == value
      ensures None? ==> r == default
    {
      match this
      case Some(v) => v
      case None => default
    }
  }
}
