/** The optional value shared by every component. */
module Options {
  datatype Option<+T> = None | Some(value: T) {
    function GetOr(default: T): (r: T) {
      match this
      case None => default
      case Some(v) => v
    }
  }
}
