/** The optional value used for nullable fields (`LocalDate?`, `string | null`) and for
    lookups that may come back `undefined`. */
module Wrappers {
  datatype Option<+T> = None | Some(value: T) {
    function GetOr(default: T): T {
      match this
      case Some(v) => v
      case None => default
    }
  }
}
