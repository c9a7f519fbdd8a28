# Command framework of a System.CommandLine + Spectre.Console demo CLI, in Dafny

The application is a small command-line demo with `greet`, `info`, `list` and
`progress` subcommands. The modelled part is the sequential logic under the
terminal rendering:

- **Options validation.** The base `CommandOptions.Validate` accepts
  everything. `ProgressCommandOptions.Validate` rejects a non-positive
  `DurationSeconds` with an out-of-range error that names the parameter.
- **The validate-then-store gate** of `CommandHandler<TOptions>.SetOptions`.
  The handler's `Options` are either unset or hold options that passed their
  own `Validate()`. A null argument or a failed validation leaves them
  untouched. The gate is a pure transition on `HandlerState`. The class
  `CommandHandler.Handler` wraps it as a mutable object whose `Valid()`
  invariant says the stored options are validated.
- **The progress step schedule.** The loop runs `steps = duration * 10`
  iterations in C# 32-bit arithmetic. Task 1 is bumped every step, task 2
  when `i > steps / 3`, task 3 when `i > steps / 2`. A bump adds
  `100 / steps` percent. The model counts bumps, so it needs no floating
  point: a task's percentage is `100 * bumps / steps`.
- **Exit codes and printed lines.** These cover the `progress` and `info`
  command actions and `ProgressCommandHandler.ExecuteAsync`. The exit code
  meant is the one an action sets (`Environment.ExitCode`). A normal return
  gives the handler's code. Every caught exception gives 1, with the line
  its catch clause prints. The handler rethrows a cancellation instead of
  converting it.
- **The original single-file program.** It has the option defaults, the
  greeting lines, the list fallback and bullets, the inline progress loop,
  and the order in which commands are registered.

Two handler variants are modelled separately:

- `ProgressCommandHandler` keeps its own duration field, 3 at start, guarded
  by `SetDuration`.
- The `progress` command drives a `CommandHandler<ProgressCommandOptions>`
  through `SetOptions`. Its `ExecuteAsync` is a parameter of
  `ProgressCommand.Invoke`.

Exceptions are the datatype `Exceptions.Exception`. `Exceptions.Message`
gives the text .NET builds for `ex.Message`: the parameter name and, for an
out-of-range error, the rejected value are appended to the constructor's
text. Every throwing operation
returns `Result` (`Ok` or `Raised`). A C# reference that may be null is an
`Option`. External calls are parameters:

- the progress display (`rendering`);
- a handler's `ExecuteAsync` (`execute`, `outcome`);
- the clock (`timestamp`).

Where the design description and the code disagree, the model follows the
code:

- Only task 1 reaches 100% at the end of the run. Tasks 2 and 3 get
  `steps-1-steps/3` and `steps-1-steps/2` bumps, both fewer than `steps`.
  `ProgressSchedule.BumpsOrdered` proves this.
- The progress loop never checks a cancellation token. A cancellation can
  only come as an exception thrown from the display.
- The exit code the action sets (`Environment.ExitCode`) is the handler's own
  return value, whatever it is. It is not fixed to 0 on success.
- `duration * 10` wraps in 32 bits. A duration of 214748365 passes
  validation but gives a negative step count, so the loop runs no steps
  (`ProgressSchedule.LargeDurationWraps`).

## Model

| member | source | states |
|---|---|---|
| `Int32.Wrap` | src/Commands/ProgressCommandHandler.cs:68 | the unchecked C# product is congruent to the exact one modulo 2^32 and equals it when it fits in 32 bits |
| `Int32.NatToString` | Program.cs:38 | the greeting number is printed as decimal digits only, at least one, with no leading zero |
| `Int32.IntToString` | Program.cs:30 | the printed count is an optional minus sign and decimal digits, the sign present exactly for a negative count |
| `Int32.NatToStringRoundTrip` | Program.cs:38 | the decimal greeting number parses back to the number printed |
| `Int32.IntToStringRoundTrip` | Program.cs:30 | the printed count, negative values included, parses back to the count |
| `Int32.NatToStringInjective` | Program.cs:38 | distinct greeting numbers print differently |
| `Exceptions.Message` | src/Commands/ProgressCommand.cs:44-62 | the text a catch clause reads from `ex.Message`: a generic failure's own text; the library's cancellation text; for argument errors the constructor's text first, left undecorated exactly when there is no parameter name and no rejected value, and ending with `.` when the rejected value is reported |
| `CommandOptions.BaseValidate` | src/Infrastructure/CommandOptions.cs:38 | the inherited `Validate()` accepts every options value |
| `CommandOptions.BaseValidateSignalsOnlyArgumentErrors` | src/Infrastructure/CommandOptions.cs:31-32 | the base validator trivially keeps the promise to fail only with argument errors |
| `ProgressCommandOptions.Validate` | src/Commands/ProgressCommandOptions.cs:58-67 | fails exactly when `DurationSeconds <= 0`, with an out-of-range error naming `DurationSeconds`, carrying the rejected value and the invalid-duration message; its `Message` is that text, ` (Parameter 'DurationSeconds')`, a new line and `Actual value was <d>.` |
| `ProgressCommandOptions.ValidateSignalsOnlyArgumentErrors` | src/Infrastructure/CommandOptions.cs:31-32 | the progress override fails only with argument-family errors |
| `ProgressCommandOptions.ValidateTestCases` | tests/SystemCommandLineSpectre.Tests/ProgressCommandOptionsTests.cs:9-31 | duration 0 is rejected naming `DurationSeconds`; duration 5 passes |
| `CommandHandler.Construct` | src/Infrastructure/CommandHandler.cs:83-87 | a null logger throws `ArgumentNullException("logger")`; otherwise the handler keeps the logger and has no options |
| `CommandHandler.SetOptions` | src/Infrastructure/CommandHandler.cs:101-106 | succeeds iff options are non-null and validate; on success stores exactly them; on failure the state is unchanged; null fails with `ArgumentNullException("options")` whatever the validator says; a validation failure is rethrown as is |
| `CommandHandler.SetOptionsPreservesInvariant` | src/Infrastructure/CommandHandler.cs:59-64 | `SetOptions` preserves the invariant: from a state whose stored options satisfy `Validate()`, every call, accepted or refused, leaves a state whose stored options satisfy it |
| `CommandHandler.BaseOptionsAlwaysStored` | src/Infrastructure/CommandOptions.cs:33-38 | options that keep the inherited `Validate()` are always stored |
| `CommandHandler.SetOptionsThrowsOnlyArgumentErrors` | src/Infrastructure/CommandHandler.cs:93-95 | with a validator that keeps its documented promise, `SetOptions` throws only argument errors |
| `CommandHandler.ReplayStoresLastAccepted` | src/Infrastructure/CommandHandler.cs:101-106 | after any sequence of calls the handler holds the last accepted options, or its earlier options if none was accepted; the logger never changes |
| `CommandHandler.ReplayKeepsInvariant` | src/Infrastructure/CommandHandler.cs:96-99 | the validated-options invariant survives any sequence of calls |
| `CommandHandler.SecondValidCallWins` | src/Infrastructure/CommandHandler.cs:105 | two successive valid calls leave the second options stored |
| `CommandHandlerTests.DummyValidate` | tests/SystemCommandLineSpectre.Tests/CommandHandlerTests.cs:10-13 | the test options fail exactly on a negative value |
| `CommandHandlerTests.SetOptionsTestCases` | tests/SystemCommandLineSpectre.Tests/CommandHandlerTests.cs:25-53 | value 1 is stored; value -1 throws an out-of-range error and nothing is stored |
| `ProgressSchedule.StepCount` | src/Commands/ProgressCommandHandler.cs:68 | the step count is congruent to `duration * 10` modulo 2^32, and equal to it when that fits in 32 bits |
| `ProgressSchedule.ScheduleBumps` | src/Commands/ProgressCommandHandler.cs:68-83 | no bumps when `steps <= 0`; otherwise task1 `steps`, task2 `steps-1-steps/3`, task3 `steps-1-steps/2` |
| `ProgressSchedule.RunSchedule` | src/Commands/ProgressCommandHandler.cs:68-83 | the loop's bump counts equal the counting definition; for `steps > 0`: task1 `steps`, task2 `steps-1-steps/3`, task3 `steps-1-steps/2` |
| `ProgressSchedule.CountAboveClosedForm` | src/Commands/ProgressCommandHandler.cs:74-82 | the number of steps `i < n` with `i > t` is `n-1-t` once `n > t+1`, else 0 |
| `ProgressSchedule.BumpsOrdered` | src/Commands/ProgressCommandHandler.cs:68-83 | task3 ≤ task2 < task1 = steps, so tasks 2 and 3 end below 100% |
| `ProgressSchedule.LateStarts` | src/Commands/ProgressCommandHandler.cs:74-82 | task 2 has bumps after `i` steps iff `i > steps/3 + 1`; task 3 iff `i > steps/2 + 1` |
| `ProgressSchedule.StepCountExact` | src/Commands/ProgressCommandHandler.cs:68 | for `0 < duration <= int.MaxValue/10` the loop runs exactly `duration*10` steps |
| `ProgressSchedule.LargeDurationWraps` | src/Commands/ProgressCommandHandler.cs:68 | duration 214748365 wraps to a negative step count and no task is bumped |
| `ProgressSchedule.DefaultDurationSchedule` | src/Commands/ProgressCommandHandler.cs:27-83 | the default 3 seconds gives 30 steps with 30, 19 and 14 bumps |
| `ProgressCommandHandler.Initial` | src/Commands/ProgressCommandHandler.cs:27 | the duration starts at 3 |
| `ProgressCommandHandler.SetDuration` | src/Commands/ProgressCommandHandler.cs:34-43 | succeeds iff `d > 0` and then sets the duration to exactly `d`; otherwise throws an out-of-range error naming `durationSeconds` and leaves the duration unchanged |
| `ProgressCommandHandler.SetDurationKeepsValid` | src/Commands/ProgressCommandHandler.cs:27-41 | the duration is positive initially and after every `SetDuration` |
| `ProgressCommandHandler.ExecuteAsync` | src/Commands/ProgressCommandHandler.cs:49-102 | a completed display returns 0 with the schedule's bump counts and prints `✓ All tasks completed!`; a cancellation is rethrown with nothing printed; any other exception prints `Error: <message>` and returns 1 |
| `ProgressCommandHandler.ExecuteAsyncExitContract` | src/Commands/ProgressCommandHandler.cs:86-101 | the outcome is 0, 1 or a rethrown cancellation, a normal return exactly when the display was not cancelled, and a line is printed exactly on a normal return |
| `ProgressCommandHandler.CompletedRunBumps` | src/Commands/ProgressCommandHandler.cs:68-89 | a completed run of a valid, non-overflowing handler bumps task 1 `duration*10` times and tasks 3 ≤ 2 fewer times |
| `ProgressCommand.Create` | src/Commands/ProgressCommand.cs:18-30 | a null handler throws `ArgumentNullException("handler")`; otherwise the `progress` command with one `--duration` option defaulting to 3 |
| `ProgressCommand.ParsedDuration` | src/Commands/ProgressCommand.cs:24-28 | an omitted `--duration` reads as 3, a given one as given |
| `ProgressCommand.Catch` | src/Commands/ProgressCommand.cs:44-63 | every caught exception sets exit code 1; argument errors print `Invalid argument: <message>`, cancellation the cancelled line, anything else `Error: <message>` |
| `ProgressCommand.Invoke` | src/Commands/ProgressCommand.cs:32-64 | the handler runs iff the parsed duration is positive, and then with exactly those options stored; otherwise the exit code is 1 with the invalid-duration line and the handler is unchanged; a normal return passes the handler's code through; a thrown exception goes to `Catch` |
| `ProgressCommand.ExitCodeIsHandlerCodeOrOne` | src/Commands/ProgressCommand.cs:41-63 | the exit code is 1 or the code the handler returned |
| `ProgressCommand.InvokeKeepsInvariant` | src/Commands/ProgressCommand.cs:39 | an invocation keeps the handler's validated-options invariant |
| `ProgressCommand.ZeroDurationRejected` | src/Commands/ProgressCommand.cs:44-48 | `--duration 0` never runs the handler and gives exit 1 with `Invalid argument: Duration must be greater than 0. (Parameter 'DurationSeconds')`, a new line and `Actual value was 0.` |
| `ProgressCommand.OmittedDurationRunsWithThree` | src/Commands/ProgressCommand.cs:24-41 | with `--duration` omitted the handler runs with duration 3 |
| `InfoCommand.Create` | src/Commands/InfoCommand.cs:17-21 | a null handler throws `ArgumentNullException("handler")`; otherwise the `info` command, with no options |
| `InfoCommand.Invoke` | src/Commands/InfoCommand.cs:23-40 | a normal return passes the handler's code through with no line; a cancellation gives 1 and the cancelled line; any other exception gives 1 and `Error: <message>` |
| `InfoCommand.ExitCodeIsHandlerCodeOrOne` | src/Commands/InfoCommand.cs:23-40 | the exit code is the handler's code or 1; it is 1 iff the handler threw or returned 1; a line is printed iff it threw |
| `LegacyProgram.ResolveGreet` | Program.cs:8-17 | omitted `--name` is `World` and omitted `--count` is 1; given values are kept |
| `LegacyProgram.GreetTable` | Program.cs:29-31 | the table rows are Name, Count and Timestamp; the Count cell parses back to the count |
| `LegacyProgram.GreetLine` | Program.cs:38 | a greeting line starts with `Hello, `, shows the name right after it, and ends with `)` |
| `LegacyProgram.GreetLineRoundTrip` | Program.cs:38 | each greeting line shows the name after `Hello, `, and its number can be read back |
| `LegacyProgram.GreetLines` | Program.cs:36-39 | exactly `max(count, 0)` lines; line `i` is the greeting numbered `i+1` and contains the name |
| `LegacyProgram.ListItems` | Program.cs:76-79 | missing or empty items become Apple, Banana, Cherry, Date, Elderberry; otherwise the given items are kept |
| `LegacyProgram.Bullet` | Program.cs:90 | a list line is the bullet followed by the item unchanged |
| `LegacyProgram.UnbulletBullet` | Program.cs:90 | removing the bullet from a bulleted item gives the item back |
| `LegacyProgram.ListLines` | Program.cs:87-93 | one bulleted line per shown item, in input order |
| `LegacyProgram.LegacyProgress` | Program.cs:106-131 | the inline loop bumps the tasks exactly as `ProgressCommandHandler.ExecuteAsync` does for the same duration; the default gives 30, 19 and 14 bumps; a duration up to `int.MaxValue/10` bumps task 1 `duration*10` times and tasks 3 ≤ 2 fewer |
| `LegacyProgram.LegacyProgressDurations` | Program.cs:98-130 | without validation, a non-positive duration (down to where `d*10` wraps) runs no steps; the default runs 30 steps with 30, 19 and 14 bumps |
| `LegacyProgram.RootCommands` | Program.cs:137-140 | the commands are registered as greet, info, list, progress, with their option defaults |

## Left out

- Terminal rendering is not modelled: tables, panels, rules, progress bars and markup colours. Modelled lines carry the text without markup.
- The list output is printed as one markup string, its bullets joined with newlines. The join is not modelled; `LegacyProgram.ListLines` returns the lines.
- Timing and async are not modelled. `Task.Delay(100)` and `await` are dropped, and the loop is a plain iteration.
- Floating-point percentages are not modelled. Progress is counted in bumps, units of `1/steps`.
- Argument parsing by the command-line library is not modelled. This covers tokenising, type coercion, unmatched-token errors (`src/Program.cs:22`) and routing to a command by name. The actions take the parsed values as inputs.
- The `info` handler body reads the host environment and draws a panel. It is not modelled: `InfoCommand.Invoke` takes its outcome as a parameter.
- The top level of `src/Program.cs` is not modelled. It does dependency-injection wiring, waits for a key press and has a fatal catch-all. The wiring classes (`ServiceCollectionExtensions`, `CommandFactory`, `ICommandFactory`) only null-check and delegate, and `ICommandHandler` has no behaviour.
- `CommandException` is not modelled. Its constructors only null-check; any such exception is `Exceptions.Failure`.
- Logging calls are not modelled. The logger is kept only as a value the handler must hold.
- `Exceptions.NewLine` is the Unix `Environment.NewLine`, `\n`. On Windows the rejected-value line of an out-of-range message follows `\r\n` instead.
- `ProgressCommandOptions.Validate` purity needs no member. The options are an immutable datatype and `Validate` is a pure function, so nothing can change `DurationSeconds`.
- `CommandOptions.BaseValidate` "changes nothing" is the same: it is a pure function.
- The abstract `CommandHandler.ExecuteAsync` (`src/Infrastructure/CommandHandler.cs:128`) has no body. It is the `execute` parameter of `ProgressCommand.Invoke`. Its documented exit-code contract is proved only for `ProgressCommandHandler.ExecuteAsync`, by `ProgressCommandHandler.ExecuteAsyncExitContract`: 0 on success, 1 on failure, cancellation rethrown.
- The process exit code is not modelled. `src/Program.cs:29-34` returns the value of `rootCommand.Parse(args).Invoke()` from the top level, and that decides it. What `Invoke()` returns for an asynchronous action that only sets `Environment.ExitCode` is command-line library behaviour the source does not show. The modelled exit code is the value the action assigns to `Environment.ExitCode`.
- `ProgressCommandHandler.ExecuteAsync`: assumes exception messages contain no Spectre markup brackets and that `MarkupLine` never throws. A message such as `[x` makes the catch clause's own `MarkupLine` throw (`src/Commands/ProgressCommandHandler.cs:99`). That exception escapes instead of the return of 1.
- `ProgressCommand.Catch`: assumes the same of the messages it prints (`src/Commands/ProgressCommand.cs:46,56,61`). A message with markup brackets makes the clause throw before it sets exit code 1.
- `InfoCommand.Invoke`: assumes the same of the message in its error line (`src/Commands/InfoCommand.cs:37`).
- `LegacyProgram.GreetTable`, `LegacyProgram.GreetLines`: assume the name contains no markup brackets. Spectre parses the interpolated name as markup (Program.cs:29,38). `--name "[red]Bob[/]"` prints `Bob` without the tags, and `--name "["` throws before anything is printed.
- `LegacyProgram.ListLines`: assumes the same of the items (Program.cs:90).
- `Int32.IntToString`: formats with an ASCII `-` and digits, as the invariant culture does. Program.cs:30 formats `{count}` under the current culture. Under .NET's ICU cultures such as sv-SE the negative sign is U+2212, so `LegacyProgram.GreetTable`'s Count cell would then not parse back for a negative count. The rejected value in `Exceptions.Message` is formatted under the same assumption.
- `LegacyProgram.LegacyProgress`: returns the bump counts only. The completion line printed after the display (Program.cs:133) is not returned. It is the same text as `ProgressCommandHandler.CompletedLine`.
- `CommandHandler.Handler` and its method `Store`: the mutable wrapper is stated with `old` and `modifies`. Its class invariant `Valid()` is proved, but it carries no row. The functional `SetOptions` carries the contract.
