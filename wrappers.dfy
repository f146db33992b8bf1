/** Option and Result, the two wrappers the model uses for Python's `None`
    and for exceptions that abort a command. */
module Wrappers {

  datatype Option<+T> = None | Some(value: T)

  /** The exceptions the modelled code lets escape. Every one of them is an
      `IndexError` raised by subscripting the list returned by `str.split`. */
  datatype Error = IndexError

  datatype Result<+T> = Ok(value: T) | Err(error: Error)
}
