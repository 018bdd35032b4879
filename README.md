# fun_run in Dafny

A model of the core of `fun_run`, a Rust library that wraps
`std::process::Command`:

- It names commands. The default name is a shell-like rendering of the program and
  its arguments; a command can also be renamed with a string or a closure.
- It runs commands either captured or streamed. A streamed run is tee'd into
  caller-supplied writers while also being captured.
- It returns a result that keeps the command's name on both paths:
  `Result<NamedOutput, CmdError>`.
- `CmdError` separates "could not run" (`SystemError`) from a non-zero exit.
  A non-zero exit comes in two variants: one that shows the captured output and
  one that says `<see above>` because the output was already streamed.

The model has five modules:

- `Wrappers`: `Option` and `Result`.
- `StdIo`: the parts of the Rust standard library the library relies on:
  - `io::Error` as a raw OS error code plus its display text;
  - `ExitStatus` as the raw Unix wait status, with `success()` (raw status 0) and
    `code()` (the exit code when the process exited normally);
  - `Output`;
  - a writer (`Sink`) that holds bytes, may be broken, and counts flushes.
- `StdText`: the text operations the library calls, written out in full:
  - `String::from_utf8_lossy`, with UTF-8 encoding and the maximal-subpart
    replacement rule;
  - `str::trim`, using the Unicode `White_Space` set;
  - decimal printing of integers;
  - the `Debug` formatting of a `str` and of an `OsStr`, and a reader that
    inverts both;
  - `[String]::join`.
- `Streams` (src/command.rs):
  - the `TeeWrite` writer, as a class over two sinks;
  - `io::copy` as a loop that reads a child pipe until end-of-stream;
  - `output_and_write_streams`, which spawns the child, drains its output
    through tees into a capture buffer and a caller's writer, waits, and
    combines the results. As written it drains only stdout: the second drain
    takes `child.stdout` again (see "## Findings"). A corrected version
    drains both pipes.
- `FunRun` (src/lib.rs):
  - `display` and `display_with_env_keys`;
  - the `CommandWithName` operations: `name`, `named`, `named_fn`,
    `named_output` and `stream_output`;
  - `NamedOutput`;
  - `CmdError`: its `name`, `status` and `Display`, and its conversion into
    `NamedOutput`;
  - `nonzero_streamed` and `nonzero_captured`.

The child is waited on only when both drains succeeded
(src/command.rs:47, `.and_then(|_| child.wait())`). After a drain error,
that error is returned and `wait` is not called.

## Model

| member | source | states |
|---|---|---|
| StdIo.ExitStatus.Code | src/lib.rs:431 | the exit code, when there is one, is in 0..255, and a successful status has code 0 |
| StdIo.Exited | src/command.rs:75 | a process that exited with code c has `code() == Some(c)`, and it counts as a success exactly when c is 0 |
| StdIo.SinkWriteAll | src/command.rs:98-99 | `write_all` into a healthy writer appends the whole buffer; a broken writer fails on a non-empty buffer and keeps its bytes unchanged |
| StdIo.Sink.WriteAll | src/command.rs:98-99 | the writer's new state is the one `SinkWriteAll` gives for its old state |
| StdIo.SinkFlush | src/command.rs:103-106 | `flush` on a healthy writer succeeds and counts one flush; a broken writer fails with its error and is unchanged |
| StdIo.Sink.Flush | src/command.rs:103-106 | the writer's new state and the result are the ones `SinkFlush` gives for its old state |
| StdText.Utf8Lossy | src/lib.rs:519 | lossy decoding yields at most one character per byte, and nothing exactly for empty input |
| StdText.Trim | src/lib.rs:520 | the trimmed text is empty or starts and ends with a character that is not whitespace |
| StdText.Utf8Encode | src/lib.rs:509 | the encoding is one to four times as long as the string |
| StdText.Join | src/lib.rs:346 | joining no parts gives nothing, and a join starts with its first part |
| StdText.IntToDecimal | src/lib.rs:431 | the text is non-empty, starts with `-` exactly for a negative number, and is otherwise digits |
| StdText.DebugStr | src/lib.rs:339 | the `Debug` form of a `str` is at least two characters longer than the string and is enclosed in double quotes |
| StdText.OsDebugStr | src/lib.rs:384-387 | the `Debug` form of an `OsStr` is at least two characters longer than the string and is enclosed in double quotes |
| StdText.LossyOfEncode | src/lib.rs:274 | lossy decoding of the UTF-8 encoding of any text gives back that text |
| StdText.TrimEmptyIff | src/lib.rs:520 | trimming leaves nothing exactly when every character is Unicode whitespace |
| StdText.DecimalRoundTrip | src/lib.rs:431 | the decimal rendering of an integer reads back as that integer |
| StdText.EscapeDebugPlain | src/lib.rs:385 | text without control characters, quotes or backslashes is its own `Debug` escape, for a `str` and for an `OsStr` |
| StdText.DebugStrRoundTrip | src/lib.rs:339 | the `Debug` form of a `str` is quoted and reads back as the string |
| StdText.OsDebugStrRoundTrip | src/lib.rs:384-387 | the `Debug` form of an `OsStr` is quoted and reads back as the string |
| StdText.SingleQuoteDebug | src/lib.rs:339 | a single quote stays as it is in the `Debug` form of a `str` and becomes `\'` in that of an `OsStr` |
| StdText.JoinCons | src/lib.rs:346 | a join is the first part, then the separator before each later part |
| StdText.JoinSnoc | src/lib.rs:391-392 | a join is each earlier part followed by the separator, then the last part |
| Streams.TeeWriteStep | src/command.rs:96-101 | a tee write succeeds exactly when no broken writer has to take bytes; on success both writers received the whole chunk and its length is returned; a failure of A is returned without touching B; a failure of B leaves A with the chunk |
| Streams.TeeFlushStep | src/command.rs:103-106 | flush A, and only if that succeeded flush B and return B's result; no data and no writer's health changes |
| Streams.TeeWrite.Tee | src/command.rs:82-87 | `tee(a, b)` holds A and B, in that order |
| Streams.TeeWrite.Write | src/command.rs:96-101 | the two writers' new states and the result are those of `TeeWriteStep` |
| Streams.TeeWrite.Flush | src/command.rs:103-106 | the two writers' new states and the result are those of `TeeFlushStep` |
| Streams.Copy | src/command.rs:24 | a drain leaves both writers' health and flush counts as they were, and never reports fewer bytes than were already copied |
| Streams.CopyOk | src/command.rs:24 | a drain succeeds exactly when the pipe ends without a read error and every chunk gets through both writers; it then reports the byte count, and both writers received every byte in order |
| Streams.CopyError | src/command.rs:24 | a failed drain returns A's error when a chunk reached a broken A, B's when a chunk reached a broken B behind a healthy A, and the read error when every chunk before it got through |
| Streams.CopyKeepsOrder | src/command.rs:24 | after any drain, B holds a prefix of the chunks read and A holds the same prefix or exactly one chunk more |
| Streams.IoCopy | src/command.rs:24 | the read loop leaves the tee in the state, and returns the result, that `Copy` gives for the whole pipe |
| Streams.Drain | src/command.rs:30-45 | a drain with no pipe to read reports `Ok(0)` and touches nothing; a successful drain hands B exactly the bytes it appends to A |
| Streams.DrainTask | src/command.rs:23-45 | the tee's new state and the drain result are those of `Drain` for the pipe taken |
| Streams.Child.Spawned | src/command.rs:17-20 | a spawned child holds both pipes and has not been waited on |
| Streams.Child.TakeStdout | src/command.rs:23 | returns the stdout pipe and leaves `None` in its place; nothing else changes |
| Streams.Child.TakeStderr | src/command.rs:26 | (corrected form) returns the stderr pipe and leaves `None` in its place; nothing else changes |
| Streams.Child.Wait | src/command.rs:47 | returns the child's exit result and marks the child as waited on; nothing else changes |
| Streams.JoinAndWait | src/command.rs:30-47 | the status is that of `JoinOutcomes`, and the child is waited on exactly when both drains succeeded |
| Streams.JoinOutcomes | src/command.rs:30-47 | a stdout drain error wins over a stderr drain error; `wait`'s result counts only when both drains succeeded |
| Streams.Finish | src/command.rs:30-53 | wait is called exactly when both drains succeeded; on success the `Output` holds the status and the two capture buffers, and the caller's writers hold what the tees gave them |
| Streams.RunAsWritten | src/command.rs:17-53 | a spawn error is returned with both writers untouched; the stderr writer is never written to and the captured stderr is empty; on success the stdout writer received exactly the captured stdout |
| Streams.RunCorrected | src/command.rs:17-53 | a spawn error is returned with both writers untouched; on success each writer received exactly the bytes captured for its stream |
| Streams.OutputAndWriteStreams | src/command.rs:6-54 | the result and the caller's two writers are those of `RunAsWritten`, which takes `child.stdout` for both drains |
| Streams.SpawnFailureTouchesNothing | src/command.rs:17-20 | a spawn error is returned before either writer is touched |
| Streams.RunAsWrittenOutcome | src/command.rs:22-53 | as written, a run succeeds exactly when stdout drains cleanly and `wait` succeeds; the `Output` is the status, all of stdout and an empty stderr; the stderr writer is untouched; `wait` runs exactly when the drain succeeded |
| Streams.RunCorrectedStdoutErrorWins | src/command.rs:30-47 | when the stdout drain fails, its error is returned and the child is not waited on |
| Streams.EchoHelloWorld | src/command.rs:61-78 | `echo -n "Hello World!"` into two empty buffers: the stdout writer and the captured stdout hold the text, both stderrs are empty, and the code is 0 |
| Streams.StderrDroppedAsWritten | src/command.rs:26 | a child writing "oops" to stderr: as written, neither the captured stderr nor the stderr writer holds it; with the drain reading `child.stderr`, both do |
| Streams.OutputAndWriteStreamsCorrected | src/command.rs:6-54 | the result and the caller's writers are those of `RunCorrected`, in which the stderr drain reads `child.stderr` |
| Streams.RunCorrectedOutcome | src/command.rs:22-53 | corrected, a run succeeds exactly when both pipes drain cleanly and `wait` succeeds; the `Output` holds the status and every byte of each stream, which is exactly what each writer received |
| FunRun.IsSafeChar | src/lib.rs:315-316 | the characters of `[A-Za-z0-9_\-.,:/@\n]`, which never need quoting |
| FunRun.NeedsQuoting | src/lib.rs:338 | `QUOTE_ARG_RE.is_match`: some character of the argument is outside the safe class |
| FunRun.DisplayArg | src/lib.rs:337-343 | an argument is shown as it is exactly when it has no character outside `[A-Za-z0-9_\-.,:/@\n]` |
| FunRun.DisplayArgReadsBack | src/lib.rs:338-339 | an argument that needs quoting is shown double-quoted, in a form that reads back as the argument |
| FunRun.DisplayArgs | src/lib.rs:333-344 | each argument is rendered on its own, in order |
| FunRun.Display | src/lib.rs:330-347 | a command's display starts with the program, unquoted, and is just the program when there are no arguments |
| FunRun.DisplayShape | src/lib.rs:330-347 | a command's display is the program, then a space and the rendering of each argument; with no arguments it is the program |
| FunRun.DisplayPushArg | src/lib.rs:330-347 | adding an argument adds a space and that argument's rendering to the display |
| FunRun.DisplayBundleInstall | src/lib.rs:326-327 | `bundle` with argument `install` displays as `bundle install` |
| FunRun.EnvMap | src/lib.rs:376-379 | the collected map has exactly the keys of the pairs |
| FunRun.EnvMapLastWins | src/lib.rs:376-379 | a key maps to the value of its last pair |
| FunRun.EnvAssignment | src/lib.rs:382-389 | one key renders as the key, `=`, and a double-quoted value |
| FunRun.EnvAssignmentReadsBack | src/lib.rs:382-389 | one key renders as the key, `=`, and the `OsStr` `Debug` form of the key's value (or of the empty string when the key is missing), which reads back as that value |
| FunRun.SingleQuoteEnvValue | src/lib.rs:384-387 | a key `K` whose value is `it's` renders as `K="it\'s"` |
| FunRun.EnvAssignments | src/lib.rs:381-389 | each key is rendered on its own, in order |
| FunRun.DisplayWithEnvKeys | src/lib.rs:368-393 | the display with env keys ends with the command's display, and is exactly that display when there are no keys |
| FunRun.DisplayWithEnvKeysShape | src/lib.rs:368-393 | the display with env keys is each key's assignment followed by a space, then the command's display; with no keys it is the command's display |
| FunRun.DisplayWithOneKey | src/lib.rs:368-393 | with one key, the display is that key's assignment, a space, and the command's display |
| FunRun.MissingKeyRendersEmpty | src/lib.rs:387 | a key that `env` lacks renders as `KEY=""` |
| FunRun.RailsEnvExample | src/lib.rs:358-365 | `RAILS_ENV=production` with `bundle install` displays as `RAILS_ENV="production" bundle install` |
| FunRun.NamedOutput.StdoutLossy | src/lib.rs:273-275 | stdout that is the UTF-8 encoding of a text reads as that text |
| FunRun.NamedOutput.StderrLossy | src/lib.rs:279-281 | stderr that is the UTF-8 encoding of a text reads as that text |
| FunRun.CmdError.Name | src/lib.rs:478-485 | the name of a system error is its own name; that of a non-zero exit is its output's name |
| FunRun.CmdError.Status | src/lib.rs:490-498 | a non-zero exit reports its output's status; a system error reports its raw OS error as a wait status, or -1, which is not a success and has no code, when there is none |
| FunRun.OnSystemError | src/lib.rs:529-531 | wraps the error as a system error with that name |
| FunRun.NamedOutputFrom | src/lib.rs:501-516 | converting an error keeps its name and its status; a non-zero exit gives back its output; a system error gives empty stdout and, as stderr, the UTF-8 bytes of the error's message, which read back as the message |
| FunRun.NonzeroStreamed | src/lib.rs:547-557 | `Ok` exactly when the status is a success; the name and output are kept on both paths; the error is the already-streamed variant |
| FunRun.NonzeroCaptured | src/lib.rs:569-579 | `Ok` exactly when the status is a success; the name and output are kept on both paths; the error is the not-streamed variant |
| FunRun.StreamedAndCapturedAgree | src/lib.rs:233-251 | the two checks agree on success and on everything but the error variant |
| FunRun.CommandWithName.Name | src/lib.rs:179-209 | a plain command is named by its display, a renamed one by its given name |
| FunRun.CommandWithName.MutCmd | src/lib.rs:184-208 | the command itself for a plain command, the wrapped command for a renamed one |
| FunRun.CommandWithName.Named | src/lib.rs:102-106 | `named(s)` is the same command, named `s` |
| FunRun.CommandWithName.NamedFn | src/lib.rs:127-131 | `named_fn(f)` names the command, as `f` leaves it, with the string `f` returns |
| FunRun.NamedTwice | src/lib.rs:102-106 | renaming twice keeps only the last name, and the command |
| FunRun.NamedOutputResult | src/lib.rs:139-149 | a failure to run is a system error; otherwise the outcome is `nonzero_captured`; the command's name is kept on every path |
| FunRun.StreamOutput | src/lib.rs:157-176 | a failure to run is a system error; otherwise the outcome is `nonzero_streamed`; the command's name is kept on every path |
| FunRun.StreamOutputNamed | src/lib.rs:20-37 | a command renamed with `named(s)` reports `s` as its name on every outcome |
| FunRun.GemInstallExampleAsWritten | src/lib.rs:24-36 | as written, the rename example asserts a name (`bundle install`) that no outcome carries |
| FunRun.GemInstallExampleNamed | src/lib.rs:24-36 | the renamed `gem install` command reports `gem install` on every outcome |
| FunRun.DisplayOutOrEmpty | src/lib.rs:518-525 | `<empty>` exactly when the decoded contents are only whitespace, the decoded contents otherwise |
| FunRun.StatusText | src/lib.rs:429-432 | the printed status is decimal digits without a leading zero and reads back as the exit code, or 1 when there is none |
| FunRun.FailureHeader | src/lib.rs:427-432 | the header starts with ``Command failed `name` `` and `exit status: `, ends with a newline, and its status reads back as the code, or 1 when there is none |
| FunRun.Message | src/lib.rs:417-448 | a non-zero exit's message starts with the failure header; a system error's ends with the error's own message |
| FunRun.StreamLines | src/lib.rs:433-444 | the last lines of a non-zero message start with `stdout: ` |
| FunRun.AlreadyStreamedMessage | src/lib.rs:436-445 | the already-streamed message is the failure header (``Command failed `name` `` and `exit status: ` with the code) followed by `stdout: <see above>` and `stderr: <see above>` on their own lines |
| FunRun.AlreadyStreamedHidesOutput | src/lib.rs:436-445 | the already-streamed message does not depend on the captured bytes |
| FunRun.NotStreamedMessage | src/lib.rs:423-435 | for any captured bytes, the not-streamed message is the header, then `stdout: ` and `stderr: ` lines showing each stream's lossy text, or `<empty>` for one that is only whitespace |
| FunRun.NotStreamedShowsOutput | src/lib.rs:423-435 | for stdout and stderr that are UTF-8 text, the not-streamed message shows each text itself, or `<empty>` for one that is only whitespace |
| FunRun.StatusLineReadsBack | src/lib.rs:427-444 | both non-zero messages start with the failure header, whose status line reads back as the exit code or 1 |
| FunRun.SystemErrorMessage | src/lib.rs:420-422 | the system error message names the command and ends with the error's own text |

## Left out

- Threads, `thread::scope`, joining, and re-raising a drain thread's panic
  (src/command.rs:22-46) are not modelled. The two drains run one after the
  other, stdout first, and each pipe is a fixed script of read results. The
  model therefore describes the result of a run that returns. It says
  nothing about liveness: a child blocked on a full pipe that nobody reads,
  and the hang that follows, is outside the model.
- Streams.OutputAndWriteStreams and Streams.OutputAndWriteStreamsCorrected:
  writers that share one underlying stream are not modelled. In Rust the two
  writers may be, say, `std::io::stdout()` twice, or two `&File` handles to
  the same file; the model requires two distinct sinks.
- Streams.Copy: a writer's health is fixed for the whole run. A writer that
  accepts some chunks and then fails is not modelled. So A runs one chunk
  ahead of B only when B fails on the first chunk that reaches it.
- Spawning, the child's pipes and `wait` are inputs. A spawn result, a script
  of read results per pipe, and the result `wait` will give stand in for the
  operating system.
- Streams.IoCopy: `io::copy` retries reads and writes that fail with
  `ErrorKind::Interrupted`; the model does not. It also does not model the
  copy buffer's size; each read result is one chunk.
- StdIo.SinkWriteAll: partial writes are not modelled. A healthy writer
  takes the whole buffer and a broken one takes nothing.
- `Command::output()`, used by `named_output`, is an input to
  FunRun.NamedOutputResult and is not modelled further.
- Programs, arguments, environment keys and values are `String`s here rather
  than `OsStr`. The lossy conversion of non-UTF-8 `OsStr` is not modelled.
- FunRun.DisplayArg and FunRun.EnvAssignment: the `Debug` forms of `str`
  and `OsStr` are modelled for ASCII control characters, quotes and
  backslashes. Rust also escapes non-printable and
  grapheme-extending Unicode characters. Those Unicode tables are not part of
  this model, so such characters are shown verbatim.
- `io::Error`'s `Display` text is a field of the error value (`message`). How
  the standard library builds that text from an OS error code is not
  modelled.
- The `which_problem` feature (`map_which_problem`, `annotate_which_problem`,
  `IoErrorAnnotation`, src/lib.rs:581-700) is not modelled. It is optional
  and depends on an external crate that inspects the file system.
- `Error::source` (src/lib.rs:450-457) is not modelled. It only exposes the
  wrapped `io::Error`.
- The accessors `status`, `stdout`, `stderr`, `name` and `output`
  (src/lib.rs:253-293) are the fields of `FunRun.NamedOutput`. The
  conversions `AsRef<Output>` and `From<NamedOutput> for Output`
  (src/lib.rs:296-312) are its `output` field.
- Formatting errors (`fmt::Error` from the `Formatter`) are not modelled.
  `CmdError`'s message is a string.

## Findings

| source | as written | input that shows it | evidently intended | confidence | as-written member | corrected member |
|---|---|---|---|---|---|---|
| src/command.rs:26 | the stderr drain takes `child.stdout` a second time, which is already `None`, so the stderr drain is `Ok(0)` and `child.stderr` is never read; a child that writes more than a pipe buffer to stderr then blocks for ever, so its stdout never ends and the call hangs (a liveness effect the model does not capture) | a child that writes `oops` to stderr and exits 0: the captured stderr and the stderr writer both stay empty | take `child.stderr`, so that stderr is both captured and streamed to the stderr writer | not executed | Streams.StderrDroppedAsWritten | Streams.RunCorrectedOutcome |
| src/lib.rs:24-36 | the rename example renames the command `gem install`, then asserts that its name is `bundle install` on both the `Ok` and the `Err` path | any outcome of `stream_output` for `gem install bundler -v 2.4.1.7` renamed `gem install`: the name is `gem install`, so either assertion fails | assert the name `gem install` | not executed | FunRun.GemInstallExampleAsWritten | FunRun.GemInstallExampleNamed |
