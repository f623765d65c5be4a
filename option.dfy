/** The optional value used throughout: a JavaScript value that may be
    `undefined`. */
module Optional {
  datatype Option<T> = None | Some(value: T)

  /** `o ?? default`. */
  function GetOr<T>(o: Option<T>, default: T): T {
    match o
    case Some(v) => v
    case None => default
  }
}
