/** The optional-value datatype used wherever the source has `T | null`
    or an optional property. */
module Wrappers {

  datatype Option<+T> = None | Some(value: T) {

    /** The wrapped value, or `default` when there is none (a field the spread `{ ...lead, ...formData }` takes from the form when present). */
    function GetOr(default: T): T {
      match this
      case Some(v) => v
      case None => default
    }
  }
}
