/** Option and Result: `undefined`/`null` and thrown errors of the JavaScript source. */
module Wrappers {

  /** `None` stands for `undefined` (or `null`) in the source. */
  datatype Option<+T> = None | Some(value: T) {
    function GetOr(default: T): T {
      match this
      case Some(v) => v
      case None => default
    }
  }

  /** `Err(e)` stands for an exception `e` thrown by the source. */
  datatype Result<+R, +E> = Ok(value: R) | Err(error: E) {
    function ToOption(): Option<R> {
      match this
      case Ok(v) => Some(v)
      case Err(_) => None
    }
  }

  /** JavaScript truthiness of an optional string: defined and non-empty. */
  predicate Truthy(s: Option<string>) {
    s.Some? && s.value != ""
  }
}
