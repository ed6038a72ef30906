/** Shared vocabulary: the optional value used wherever the source has a nullable column or argument. */
module Common {
  datatype Option<+T> = None | Some(value: T) {
    function GetOr(otherwise: T): T {
      if None? then otherwise else value
    }
  }
}
