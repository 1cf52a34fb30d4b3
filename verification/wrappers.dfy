/** Failure-carrying result types shared by the other modules.
    Go functions here return `error` (nil on success) or `(*T, error)`;
    `Outcome` models the first, `Result` the second. */
module Wrappers {

  datatype Option<+T> = None | Some(value: T)

  /** A Go `error` return: `Pass` is nil, `Fail` carries the error. */
  datatype Outcome<+E> = Pass | Fail(error: E)

  /** The outcome of an operating-system call (a command run, a file
      operation, a process spawn, wait or kill): success, or the error it
      reported. */
  datatype RunResult = Succeeded | Failed(cause: string)

  /** A Go `(*T, error)` return. */
  datatype Result<+T, +E> = Success(value: T) | Failure(error: E)
}
