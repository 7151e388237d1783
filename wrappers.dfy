/** Small value wrappers shared by every module of the model. */
module Wrappers {

  /** A value that may be absent (a nullable column, an optional argument). */
  datatype Option<+T> = None | Some(value: T) {
    function GetOr(default: T): T {
      match this
      case Some(v) => v
      case None => default
    }
  }

  /**
   * A JavaScript value as a loosely typed payload delivers it: `undefined`,
   * `null`, or a real value. Strict equality (`===`) tells all three apart.
   */
  datatype Js<+T> = Undefined | Null | Defined(value: T)

  /** The outcome of an outbound HTTP call whose payload the model takes as given. */
  datatype Fetch<+T> = Fetched(data: T) | FetchFailed(message: string)
}
