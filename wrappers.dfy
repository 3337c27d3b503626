/** Optional values and pass/fail outcomes shared by the whole model.
    JavaScript's `null` / `undefined` become `None`; a thrown validation
    error or an early `return` after an error toast becomes `Fail`. */
module Wrappers {

  datatype Option<+T> = None | Some(value: T) {
    function GetOr(default: T): T {
      match this
      case Some(v) => v
      case None => default
    }
  }

  datatype Outcome<+E> = Pass | Fail(error: E)

  /** What `parseFloat` of a form input gives: `NaN` or a number. */
  datatype ParsedReal = NotANumber | Real(value: real)

  /** What `parseInt` of a form input gives; it never yields a fraction, so
      `Number.isInteger` always holds for a number it returns. */
  datatype ParsedInt = NotAnInteger | Int(value: int)
}
