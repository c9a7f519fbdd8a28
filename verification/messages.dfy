/**
 The user-facing error strings the command actions print (`Messages.Error`).
 The two format strings have a single `{0}` at the end, so formatting them
 appends the exception message to the fixed text.
 */
module Messages {

  /** `Command_InvalidArgument`, "Invalid argument: {0}". */
  function InvalidArgument(message: string): string {
    "Invalid argument: " + message
  }

  /** `Command_ExecutionError`, "Error: {0}". */
  function ExecutionError(message: string): string {
    "Error: " + message
  }

  const InfoCancelled: string := "Info command cancelled."

  const ProgressCancelled: string := "Progress command cancelled."
}
