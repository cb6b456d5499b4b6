/** The `Option` type used in place of Go's nil and (value, ok) pairs. */
module Wrappers {
  datatype Option<+T> = None | Some(value: T) {
    function GetOr(default: T): T {
      match this
      case Some(v) => v
      case None => default
    }
  }

  /** Go's `if s != "" { p = to.Ptr(s) }`: an empty string is not sent. */
  function NonEmpty(s: string): Option<string> {
    if s == "" then None else Some(s)
  }
}
