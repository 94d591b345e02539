/** Values shared by the three services: optional request fields, HTTP error
    responses, and the JavaScript notion of a "truthy" string field. */
module Common {

  /** A field that may be absent (`undefined` or `null` in a JSON body). */
  datatype Option<+T> = None | Some(value: T) {

    /** The value, or `default` when absent: JavaScript's `value ?? default`,
        which keeps every present value, including `0` and `""`. */
    function GetOr(default: T): (r: T)
      ensures Some? ==> r == value
      ensures None? ==> r == default
    {
      match this
      case Some(v) => v
      case None => default
    }
  }

  /** An HTTP error response: its status code and its `message`. */
  datatype HttpError = HttpError(status: int, message: string)

  /** A handler's answer: a successful body, or an error response. */
  datatype Result<+T> = Ok(value: T) | Err(error: HttpError)

  /** `!!field` for a string field of a request: false when the field is
      absent or the empty string. */
  predicate Truthy(field: Option<string>)
  {
    field.Some? && field.value != ""
  }
}
