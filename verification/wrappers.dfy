/** The optional-value datatype shared by the other modules. */
module Wrappers {

  /** A value that may be absent: an argument the caller left out, a decode
      that produced no image, a blob the encoder did not hand back. A bound
      left out stands for positive infinity. */
  datatype Option<+T> = None | Some(value: T) {

    /** What a left-out argument defaults to: the given value if present,
        `fallback` otherwise. */
    function GetOr(fallback: T): (v: T) {
      if Some? then value else fallback
    }
  }
}
