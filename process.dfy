/** The outcome of `subprocess.run(..., capture_output=True, text=True, timeout=30)`. */
module Process {
  /** A completed process, a `TimeoutExpired`, or any other exception with its message. */
  datatype Outcome = Completed(returncode: int, stdout: string, stderr: string) | TimedOut | Raised(message: string)
}
