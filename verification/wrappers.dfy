/**
 Option and Result values used across the model in place of JavaScript's
 `null`/`undefined` fields and thrown exceptions.
 */
module Wrappers {

  datatype Option<+T> = None | Some(value: T) {

    /** The wrapped value, or `default` when absent (JavaScript `x ?? default`). */
    function GetOr(default: T): T {
      match this
      case Some(v) => v
      case None => default
    }
  }

  datatype Result<+R, +E> = Success(value: R) | Failure(error: E)

  /**
   The value caught by a `catch (err)` block of a hook.  Only a JavaScript
   `Error` instance carries a message that the hooks read; anything else
   (for example a plain error object from the backend client) is replaced
   by a fixed fallback text.
   */
  datatype Thrown = JsError(message: string) | NonError

  /** `err instanceof Error ? err.message : fallback` */
  function MessageOr(t: Thrown, fallback: string): (m: string)
    ensures t.JsError? ==> m == t.message
    ensures t.NonError? ==> m == fallback
  {
    match t
    case JsError(msg) => msg
    case NonError => fallback
  }

  /** JavaScript truthiness of an optional number: `x || 0`. */
  function OrZero(x: Option<real>): real {
    x.GetOr(0.0)
  }

  /** JavaScript truthiness of an optional string: `s || fallback`. */
  function StrOr(s: Option<string>, fallback: string): (r: string)
    ensures s.Some? && s.value != "" ==> r == s.value
    ensures (s.None? || s.value == "") ==> r == fallback
  {
    if s.Some? && s.value != "" then s.value else fallback
  }

  /** The end of a form's submit handler: the save callback runs only for a
      valid form, and the dialog closes only when it succeeds. */
  datatype Submission<+D, +E> = NotSubmitted(errors: E) | SavedAndClosed(saved: D) | KeptOpen(sent: D)
}
