/** The exceptions the two services raise or catch, and the outcome of a call
    that either returns a value or raises one of them. */
module Outcomes {

  /** The exception classes the services distinguish. `RequestException` and
      `BinanceApiException` are the two transient classes of the retry wrapper;
      `TypeError` is what Python raises for `raise None`. */
  datatype ExceptionKind =
    | RequestException
    | BinanceApiException
    | ValueError
    | KeyError
    | TypeError
    | OtherException

  datatype Exception = Exception(kind: ExceptionKind, message: string)

  /** What a Python call does: return a value or raise an exception. */
  datatype Outcome<+T> = Returned(value: T) | Raised(error: Exception)

  datatype Option<T> = None | Some(value: T)
}
