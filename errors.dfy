/** Failure kinds and the result wrappers the model returns them in. */
module Errors {

  /** Why a call fails. The wording of the Go error messages is not modelled, only their kind. */
  datatype Error =
    | CompileFailed   // the schema compiler reported an error
    | NoFiles         // the schema compiler returned no file
    | TypeNotFound    // the message type is not declared at the top level of the first file
    | FieldNotFound   // the message type has no field of that name
    | TypeMismatch    // the input's dynamic Go type is not accepted for the field's kind
    | Unsupported     // the field's kind is not int64, int32 or string
    | NilMessage      // the handle holds no dynamic message
    | CodecFailed     // the wire codec reported an error

  datatype Option<+T> = None | Some(value: T)

  /** A Go result pair `(T, error)`. */
  datatype Result<+T> = Ok(value: T) | Err(error: Error)

  /** A Go call that returns only an `error`. */
  datatype Outcome = Pass | Fail(error: Error)
}
