/** Option, Result and parse-outcome values for optional fields, error returns and
    deserialised documents. */
module Wrappers {

  datatype Option<+T> = None | Some(value: T) {
    function GetOr(default: T): T {
      match this
      case Some(v) => v
      case None => default
    }
  }

  datatype Result<+T, +E> = Ok(value: T) | Err(error: E)

  /** The outcome of deserialising a JSON document into a `T`. */
  datatype Parsed<+T> = Parsed(value: T) | Malformed
}
