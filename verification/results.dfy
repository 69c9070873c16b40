/** Optional values and the two exception kinds the modeller raises, as values. */
module Results {

  /** A PHP value that may be `null`. */
  datatype Option<+T> = None | Some(value: T)

  /** The exceptions thrown by the core: PHP's `TypeError` and `DivisionByZeroError`. */
  datatype Error = TypeError(message: string) | DivisionByZero

  /** The result of an operation that may throw. */
  datatype Result<+T> = Ok(value: T) | Err(error: Error)

  /** The result of an operation that returns nothing but may throw. */
  datatype Outcome = Pass | Fail(error: Error)
}
