/** Small shared vocabulary: an optional value, for JavaScript's `undefined`
    and `null` results. */
module Base {

  datatype Option<+T> = None | Some(value: T) {

    function GetOr(default: T): T {
      match this
      case Some(v) => v
      case None => default
    }
  }
}
