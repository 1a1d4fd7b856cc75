/** Small wrapper datatypes shared by the model: optional values, results,
    and the values a JavaScript `throw` can carry. */
module Results {

  /** A value that may be absent (`undefined` in the source). */
  datatype Option<+T> = None | Some(value: T)

  /** Either a produced value or a failure. */
  datatype Result<+T, +E> = Ok(value: T) | Err(error: E)

  /** What a `throw` hands to a `catch` block: an `Error` instance with its
      `message`, or some other JavaScript value that is not an `Error`. */
  datatype Thrown = ErrorValue(message: string) | NonError
}
