/** Values and failures shared by every part of the model.

    The Python code signals failures with exceptions; here each call that can
    fail yields a `Result`, and an exception that the caller does not catch is
    passed on as the caller's own `Raised` result. */
module Outcomes {

  /** A nullable value (Python's `None` or a SQL NULL). */
  datatype Option<+T> = None | Some(value: T)

  /** The exception kinds the modelled code raises or catches.
      `ConnectionError` is `requests.exceptions.ConnectionError`, which
      app/Supervisor.py imports; `BuiltinConnectionError` is Python's own
      `ConnectionError`, the one the prototype Supervisor.py names without
      importing anything, and the two are unrelated classes. `QueryError`
      stands for a MariaDB error on a malformed statement. */
  datatype ErrorKind =
    | ConnectionError
    | BuiltinConnectionError
    | RuntimeError
    | TypeError
    | AttributeError
    | IndexError
    | KeyError
    | QueryError

  /** The outcome of a call: a returned value or a raised exception. */
  datatype Result<+T> = Ok(value: T) | Raised(error: ErrorKind)
}
