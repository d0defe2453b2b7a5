/** The optional value used wherever the program has "nothing here yet":
    a missing key in a results record, the first frame's previous timer,
    the best individual before any generation has been scored. */
module Opt {

  datatype Option<+T> = None | Some(value: T) {

    /** The value held, or the given default when there is none. */
    function GetOr(default: T): (r: T)
      ensures Some? ==> r == value
      ensures None? ==> r == default
    {
      match this
      case Some(v) => v
      case None => default
    }
  }
}
