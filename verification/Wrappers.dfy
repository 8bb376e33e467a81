/** Results of operations that the encoder reports by throwing. */
module Wrappers {

  datatype Option<+T> = None | Some(value: T)

  datatype Error = DomainError | InvalidArgument | DataTooLong | LengthError | OutOfRange

  datatype Result<+T> = Ok(value: T) | Err(error: Error)
}
