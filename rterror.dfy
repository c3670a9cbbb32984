/** Error reporting shared by the ray-tracing core: the fatal error kinds that
    `error()` exits on, and the result of an operation that can fail. */
module RtError {

  /** USER: bad invocation or input; SYSTEM: allocation or I/O failure;
      CONSISTENCY: an internal invariant was broken. */
  datatype ErrorKind = User | System | Consistency

  datatype Fatal = Fatal(kind: ErrorKind, message: string)

  datatype Result<T> = Ok(value: T) | Err(fatal: Fatal)

  datatype Option<T> = None | Some(value: T)
}
