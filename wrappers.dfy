/** Optional values (a nullable column, a missing key) and pass/fail outcomes
    (a `ValidationError` raised by a `clean` method). */
module Wrappers {

  datatype Option<+T> = None | Some(value: T) {
    function GetOr(default: T): T {
      match this
      case Some(v) => v
      case None => default
    }
  }

  datatype Outcome<+E> = Pass | Fail(error: E)
}
