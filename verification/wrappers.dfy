/** The optional-value datatype used for every caller option that may be left unset. */
module Wrappers {

  /** `None` stands for a JavaScript property that is absent (or holds a value of
      a type the code does not act on); `Some` for one that is present. */
  datatype Option<+T> = None | Some(value: T) {

    /** The present value, or `default` when absent. */
    function GetOr(default: T): (r: T)
      ensures Some? ==> r == value
      ensures None? ==> r == default
    {
      match this
      case Some(v) => v
      case None => default
    }
  }
}
