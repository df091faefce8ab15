/** Small value wrappers shared by the rest of the model. */
module Wrappers {

  /** A value that may be absent: a JavaScript `null`/`undefined`, or a `NaN` from parseInt. */
  datatype Option<T> = None | Some(value: T) {

    /** The wrapped value, or `default` when there is none. */
    function GetOr(default: T): T {
      match this
      case Some(v) => v
      case None => default
    }
  }

  /** A form control looked up by its element id: absent from the page, or present with its current value. */
  datatype Control<T> = Missing | Present(value: T)
}
