/** Python values the model needs everywhere: an optional value, the exceptions the
    core can raise, and the outcome of a call that either returns or raises. */
module PyBase {

  datatype Option<+T> = None | Some(value: T)

  /** The built-in exceptions raised by the modelled code. */
  datatype PyException = TypeError | IndexError | ZeroDivisionError

  /** The outcome of a Python call: it returns a value or raises an exception. */
  datatype Outcome<+T> = Ok(value: T) | Raise(exc: PyException)
}
