/** A value that may be absent: Python's `None`, JavaScript's `undefined`. */
module Options {

  datatype Option<+T> = None | Some(value: T)

  function Or<T>(v: Option<T>, default: T): T {
    match v
    case Some(x) => x
    case None => default
  }
}
