/** The Python exceptions the modelled code can raise, and the result type that
    carries either a value or the exception that ended the call. */
module Errors {

  datatype PyError =
    | IndexError                  // a list subscript out of range
    | KeyError(key: string)       // a dictionary or template mapping without `key`
    | ValueError(position: nat)   // string.Template: invalid placeholder; `position` is the index just after its '$'
    | AttributeError              // `.substitute` called on a message content that is not a Template

  datatype Result<T> = Ok(value: T) | Err(error: PyError)
}
