/** Values shared by every module: optional (nullable) values, the .NET exceptions
    the modelled code raises, results that may be an exception, and bytes. */
module Wrappers {

  /** A reference or value that may be null. */
  datatype Option<+T> = None | Some(value: T)

  /** The exceptions raised by the modelled code; the argument-checking ones carry
      the parameter name the source passes to them. */
  datatype Exception =
    | ArgumentNullException(paramName: string)
    | ArgumentOutOfRangeException(paramName: string)
    | ArgumentException(paramName: string)
    | FormatException
    | InvalidCastException
    | NullReferenceException
      /** The `ArgumentException` a dictionary's `Add` throws for a key it already holds. */
    | DuplicateKeyException
      /** Any exception raised by code outside the model (the application's
          repository, the JSON library). */
    | ExternalException(name: string)

  /** The outcome of a call that either returns a value or throws. */
  datatype Result<+T> = Ok(value: T) | Throws(error: Exception)

  /** A .NET `byte`. */
  type byte = x: int | 0 <= x < 256
}
