/** Result shapes shared by the models. */
module Wrappers {

  datatype Option<+T> = None | Some(value: T)

  /** The value, or the default where there is none. */
  function GetOr<T>(o: Option<T>, default: T): T {
    match o
    case Some(v) => v
    case None => default
  }
}
