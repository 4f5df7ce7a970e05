/** The optional-value type used across the model for absent dictionary entries
    and for "no call was made". */
module Wrappers {

  datatype Option<+T> = None | Some(value: T) {

    /** The value, or `default` when there is none. */
    function GetOr(default: T): (r: T)
      ensures Some? ==> r == value
      ensures None? ==> r == default
    {
      match this
      case Some(v) => v
      case None => default
    }

    /** A zero- or one-element sequence holding the value, if any. */
    function ToSeq(): (r: seq<T>)
      ensures |r| <= 1
      ensures |r| == 1 <==> Some?
      ensures Some? ==> r[0] == value
    {
      match this
      case Some(v) => [v]
      case None => []
    }
  }
}
