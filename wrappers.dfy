/** Option and Result, with the exceptions the modelled Python code can raise. */
module Wrappers {

  datatype Option<+T> = None | Some(value: T)

  /** The outcome of a Python call: the value it returned or the exception it raised. */
  datatype Result<+T, +E> = Success(value: T) | Failure(error: E)

  /** The Python exceptions that the modelled code lets escape. */
  datatype PyError =
    | KeyError(key: string)      // `d[key]` on a dict without that key
    | TypeError                  // `len`, slicing or formatting applied to the wrong kind of value
    | AttributeError             // `.strip()` / `.get()` on a value that has no such method
    | IndexError                 // a list index outside `-len(xs) <= i < len(xs)`
    | ValueError                 // `range(...)` with a zero step
    | Raised(message: string)    // an exception raised by an external collaborator (the LLM)
}
