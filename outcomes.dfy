/** Failure-carrying results shared by the model's modules. */
module Outcomes {

  /** A value that may be absent, as a LINQ `FirstOrDefault` over reference types yields. */
  datatype Option<T> = None | Some(value: T)

  /** The failure conditions of a speed-test run that the model covers. */
  datatype Error =
    /** No candidate server matched the configured region: `First()` on an empty list throws. */
    | NoServerAvailable

  /** The outcome of an operation that may fail instead of producing a value. */
  datatype Result<T> = Success(value: T) | Failure(error: Error)
}
