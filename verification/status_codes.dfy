/** Status codes returned (or thrown) by the framework, and the two wrapper
    types the model uses for "a value or nothing" and "a value or an error". */
module StatusCodes {

  /** The subset of the framework's status codes that the modelled code produces. */
  datatype StatusCode =
    | Success
    | Failure
    | NotFound
    | NotInitialized
    | AlreadyPresent
    | InvalidParameter
    | OutOfRange

  /** A value that may be absent; stands for a nullable pointer or an unset output. */
  datatype Option<+T> = None | Some(value: T)

  /** Either a value (the call returned STATUS_CODE_SUCCESS and wrote its output)
      or the error code it returned or threw instead. */
  datatype Result<+T> = Ok(value: T) | Err(code: StatusCode) {

    predicate IsFailure() {
      Err?
    }

    function PropagateFailure<U>(): Result<U>
      requires Err?
    {
      Err(code)
    }

    function Extract(): T
      requires Ok?
    {
      value
    }

    /** The status code a caller would see. */
    function Status(): StatusCode {
      if Ok? then Success else code
    }
  }
}
