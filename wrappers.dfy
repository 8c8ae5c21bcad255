/** Error-carrying result types shared by every module.

    The C++ layer reports failures either as an `absl::Status` code or as a
    thrown standard exception, and the Python layer raises built-in
    exceptions; `ErrorKind` names each of those failure classes so that a
    model operation can say exactly which one it produces. */
module Wrappers {

  datatype ErrorKind =
    | InvalidArgument     // absl::InvalidArgumentError, std::invalid_argument
    | OutOfRange          // std::out_of_range
    | Overflow            // std::overflow_error
    | Unimplemented       // absl::UnimplementedError
    | TypeError           // Python TypeError
    | ValueError          // Python ValueError
    | IndexError          // Python IndexError
    | TypePromotionError  // xft TypePromotionError

  datatype Option<+T> = None | Some(value: T)

  datatype Result<+T> = Ok(value: T) | Err(error: ErrorKind) {
    predicate IsFailure() { Err? }

    function PropagateFailure<U>(): Result<U>
      requires Err?
    {
      Err(error)
    }

    function Extract(): T
      requires Ok?
    {
      value
    }
  }

  /** The outcome of an operation that yields no value (`absl::Status`). */
  datatype Status = Pass | Fail(error: ErrorKind)
}
