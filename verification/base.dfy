/** Values that may be absent: JavaScript's `null`/`undefined` and the
    empty-string "not set" convention of the app's form fields. */
module Base {

  datatype Option<+T> = None | Some(value: T) {

    /** The wrapped value, or `default` when absent (JavaScript's `x || d`
        for a value whose only falsy form is absence). */
    function GetOr(default: T): T {
      match this
      case Some(v) => v
      case None => default
    }
  }
}
