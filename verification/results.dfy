/** Optional values and the exceptions the modelled Python code raises or lets escape. */
module Results {

  datatype Option<+T> = None | Some(value: T)

  /** The exception kinds that reach a caller. `External` stands for any exception
      raised by a library outside the model (python-can, scapy, the database). */
  datatype Error =
    | ValueError(reason: string)
    | KeyError(key: string)
    | RuntimeError(reason: string)
    | AttributeError(reason: string)
    | TypeError(reason: string)
    | ZeroDivisionError
    | External(reason: string)

  /** The outcome of a call that either returns a value or raises. */
  datatype Result<+T> = Success(value: T) | Failure(error: Error) {

    predicate IsFailure() {
      Failure?
    }

    function PropagateFailure<U>(): Result<U>
      requires Failure?
    {
      Failure(error)
    }

    function Extract(): T
      requires Success?
    {
      value
    }
  }
}
