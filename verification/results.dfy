/** Failure-carrying values shared by the file store and the cache engine.
    PHP exceptions thrown by the source become `Err` values here. */
module Results {

  /** A value that may be absent (PHP `null` / `false` returns). */
  datatype Option<+T> = None | Some(value: T)

  /** The exceptions the modelled code can raise. The payload is the path the
      message names. */
  datatype Error =
    | FileNotFound(path: string)   // Sprockets\FileNotFound
    | FileException(path: string)  // Sprockets\FileException
    | CompileError(path: string)   // any exception escaping the compiler

  /** The outcome of an operation that yields a value or throws. */
  datatype Result<+T> = Ok(value: T) | Err(error: Error)

  /** The outcome of an operation that yields nothing or throws. */
  datatype Outcome = Pass | Fail(error: Error)
}
