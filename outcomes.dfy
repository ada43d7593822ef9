/** Option and Result, and the Python exceptions that the modelled code can raise. */
module Outcomes {

  datatype Option<+T> = None | Some(value: T)

  /** The exception classes that reach the modelled code paths. */
  datatype PyError =
    | KeyError        // a missing dictionary key (unknown `__class__` tag on reload)
    | IndexError      // indexing past the end of a token or split list
    | TypeError       // a value of the wrong type (e.g. `strptime(None, ...)`)
    | ValueError      // a malformed value (unparseable timestamp, unclosed quote)
    | AttributeError  // an attribute that neither the instance nor its class has

  datatype Result<+T> = Ok(value: T) | Err(error: PyError)
}
