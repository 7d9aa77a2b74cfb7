/**
 * External tools (adb, scrcpy) are not run by the model: each call site
 * receives the outcome the operating system would have produced.
 */
module Exec {
  import opened Wrappers
  import opened Errors

  /**
   * The outcome of `Command::output()`: the process ran and exited (with or
   * without success, and with its captured streams), or it could not be
   * started, with the text of the `io::Error`.
   */
  datatype Output = Exited(success: bool, stdout: string, stderr: string) | LaunchFailed(reason: string)

  /** `run_adb_command` (adb_service.rs), given what running adb produced. */
  function RunAdbCommand(o: Output): (r: Result<string, AppError>)
    ensures r.Ok? <==> o.Exited? && o.success
    ensures r.Ok? ==> r.value == o.stdout
    ensures r.Err? ==> r.error.AdbExecutionFailed?
    ensures o.LaunchFailed? ==> r.error.msg == "Failed to execute adb: " + o.reason
    ensures o.Exited? && !o.success ==> r.error.msg == "ADB command failed: " + o.stderr
  {
    match o
    case LaunchFailed(reason) => Err(AdbExecutionFailed("Failed to execute adb: " + reason))
    case Exited(success, stdout, stderr) =>
      if !success then Err(AdbExecutionFailed("ADB command failed: " + stderr))
      else Ok(stdout)
  }
}
