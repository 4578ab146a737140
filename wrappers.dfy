/** The optional value used for absent pointer positions and for codes that
    decode to nothing. */
module Wrappers {

  datatype Option<T> = None | Some(value: T) {

    /** `unwrap_or(default)`. */
    function GetOr(default: T): T
    {
      match this
      case Some(v) => v
      case None => default
    }
  }
}
