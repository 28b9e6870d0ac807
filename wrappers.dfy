/** Option and Result values, and the Python exceptions the modelled code can raise. */
module Wrappers {

  datatype Option<+T> = None | Some(value: T)

  datatype Result<+T, +E> = Ok(value: T) | Err(error: E)

  /** The exceptions raised by the modelled Python code, by class. */
  datatype PyError =
    | IndexError            // indexing past the end of a list (`xs[-1]` on `[]`, `xs[0]` on `[]`)
    | TypeError             // subscripting a non-container, `in` on None, duplicate keyword arguments
    | AttributeError        // calling a method the value does not have (`str.values()`)
    | UnboundLocalError     // reading a local that was never assigned
    | KeyError              // `d[k]` for a key the dict does not have
    | IOError(msg: string)  // a document that could not be fetched or read
    | ClientError(msg: string)  // any other exception raised by a foreign client library
}
