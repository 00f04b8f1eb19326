/** Outcomes shared by every module: optional values, fallible results and external-process runs. */
module Results {

  datatype Option<T> = None | Some(value: T)

  /** A Go `(value, error)` pair: either a value or the error's message. */
  datatype Result<T> = Ok(value: T) | Err(msg: string)

  /**
   * What one external command (`docker`, `aws`) gave the tool: the binary was
   * not found on the PATH, it ran and exited with an error, or it succeeded
   * and printed `stdout`.
   */
  datatype ExecResult = NotFound(err: string) | Failed(err: string) | Succeeded(stdout: string)
}
