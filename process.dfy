/** What the model knows about running an external program. Nothing is executed:
    every subprocess.run call of the source is replaced by an Outcome value that
    the caller supplies. */
module Process {

  datatype Option<T> = None | Some(value: T)

  datatype Result<T, E> = Ok(value: T) | Err(error: E)

  /** How one subprocess.run(..., check=True) call ended:
      - Completed: exit status 0, with the captured streams;
      - ProcFailed: subprocess.CalledProcessError (non-zero exit) with the captured
        streams and str(e);
      - NotFound: FileNotFoundError (the binary could not be spawned), with str(e);
      - OtherError: any other exception, with str(e). */
  datatype Outcome =
    | Completed(stdout: string, stderr: string)
    | ProcFailed(stdout: string, stderr: string, message: string)
    | NotFound(message: string)
    | OtherError(message: string)

  /** `e.stderr if e.stderr else str(e)`: the captured error text, or the
      exception's own message when nothing was captured. */
  function FailureDetail(stderr: string, message: string): (d: string)
    ensures stderr != "" ==> d == stderr
    ensures stderr == "" ==> d == message
  {
    if stderr != "" then stderr else message
  }

  /** What a tool or resource gives back: the returned string, or an exception
      that escapes it because its except clauses do not catch it. */
  datatype Reply = Text(body: string) | Raised(message: string)
}
