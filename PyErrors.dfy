// The Python side of the framework reports failures by raising exceptions.
// Only the exception's class is modelled; its message is not.
module PyErrors {

  datatype PyException = ValueError | RuntimeError | AttributeError | AssertionError | IndexError

  /** What a Python call does: return a value or raise an exception. */
  datatype PyResult<T> = Returned(value: T) | Raised(exc: PyException)
}
