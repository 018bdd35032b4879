/**
 * src/lib.rs: naming and displaying commands, the `NamedOutput` result, the
 * `CmdError` taxonomy and its messages, and the status checks that turn a
 * non-zero exit into an error.
 */
module FunRun {
  import opened Wrappers
  import opened StdIo
  import opened StdText

  /** The parts of `std::process::Command` this library reads: the program and its arguments. */
  datatype Command = Command(program: string, args: seq<string>)

  // ---------------------------------------------------------------------
  // display

  /** A character of the class `[A-Za-z0-9_\-.,:/@\n]`, which never needs quoting. */
  predicate IsSafeChar(c: char) {
    || ('A' <= c <= 'Z')
    || ('a' <= c <= 'z')
    || ('0' <= c <= '9')
    || c in {'_', '-', '.', ',', ':', '/', '@', '\n'}
  }

  /** `QUOTE_ARG_RE.is_match(arg)`: some character of the argument is outside the safe class. */
  predicate NeedsQuoting(arg: string) {
    exists i | 0 <= i < |arg| :: !IsSafeChar(arg[i])
  }

  /**
   * One argument as `display` renders it: verbatim exactly when every
   * character is safe, otherwise in its `Debug` form.
   */
  function DisplayArg(arg: string): (r: string)
    ensures r == arg <==> !NeedsQuoting(arg)
  {
    if NeedsQuoting(arg) then DebugStr(arg) else arg
  }

  /** An argument that needs quoting is shown double-quoted, in a form that reads back as the argument. */
  lemma DisplayArgReadsBack(arg: string)
    requires NeedsQuoting(arg)
    ensures var r := DisplayArg(arg);
      |r| >= 2 && r[0] == '"' && r[|r| - 1] == '"' && UnquoteDebug(r) == Some(arg)
  {
    DebugStrRoundTrip(arg);
  }

  function DisplayArgs(args: seq<string>): (r: seq<string>)
    ensures |r| == |args|
    ensures forall i | 0 <= i < |args| :: r[i] == DisplayArg(args[i])
  {
    seq(|args|, i requires 0 <= i < |args| => DisplayArg(args[i]))
  }

  /**
   * `display(command)`: the program and its rendered arguments, joined by
   * spaces. It starts with the program, unquoted, and is just the program
   * when there are no arguments.
   */
  function Display(cmd: Command): (r: string)
    ensures |r| >= |cmd.program| && r[..|cmd.program|] == cmd.program
    ensures cmd.args == [] ==> r == cmd.program
  {
    JoinCons(" ", cmd.program, DisplayArgs(cmd.args));
    Join(" ", [cmd.program] + DisplayArgs(cmd.args))
  }

  /**
   * The display of a command is its program, unquoted, followed by a single
   * space and the rendering of each argument, in order; with no arguments it
   * is just the program.
   */
  lemma DisplayShape(cmd: Command)
    ensures Display(cmd) == cmd.program + SepBeforeEach(" ", DisplayArgs(cmd.args))
    ensures cmd.args == [] ==> Display(cmd) == cmd.program
  {
    JoinCons(" ", cmd.program, DisplayArgs(cmd.args));
  }

  /** Adding an argument to a command adds a space and that argument's rendering to its display. */
  lemma DisplayPushArg(program: string, args: seq<string>, arg: string)
    ensures Display(Command(program, args + [arg])) == Display(Command(program, args)) + " " + DisplayArg(arg)
  {
    DisplayShape(Command(program, args));
    DisplayShape(Command(program, args + [arg]));
    assert DisplayArgs(args + [arg]) == DisplayArgs(args) + [DisplayArg(arg)];
    SepBeforeEachSnoc(" ", DisplayArgs(args), DisplayArg(arg));
  }

  /** `display(Command::new("bundle").arg("install"))` is `"bundle install"`. */
  lemma DisplayBundleInstall()
    ensures Display(Command("bundle", ["install"])) == "bundle install"
  {
    assert !NeedsQuoting("install") by {
      forall i | 0 <= i < |"install"| ensures IsSafeChar("install"[i]) {
      }
    }
    DisplayPushArg("bundle", [], "install");
    assert [] + ["install"] == ["install"];
  }

  // ---------------------------------------------------------------------
  // display_with_env_keys

  /**
   * The `HashMap` that `env` is collected into: every key of a pair is in
   * it, and a later pair for a key replaces an earlier one.
   */
  function EnvMap(env: seq<(string, string)>): (m: map<string, string>)
    ensures forall k :: k in m <==> exists i | 0 <= i < |env| :: env[i].0 == k
  {
    if env == [] then map[]
    else
      var m := EnvMap(env[..|env| - 1]);
      assert forall i | 0 <= i < |env| - 1 :: env[..|env| - 1][i] == env[i];
      m[env[|env| - 1].0 := env[|env| - 1].1]
  }

  /** The value a key gets is the one of its last pair. */
  lemma {:induction false} EnvMapLastWins(env: seq<(string, string)>, i: int)
    requires 0 <= i < |env|
    requires forall j | i < j < |env| :: env[j].0 != env[i].0
    ensures env[i].0 in EnvMap(env) && EnvMap(env)[env[i].0] == env[i].1
  {
    if i < |env| - 1 {
      var init := env[..|env| - 1];
      assert init[i] == env[i];
      EnvMapLastWins(init, i);
    }
  }

  /**
   * `KEY="value"` for one key: the key as it is, `=`, then the key's value
   * (the empty string when the key is missing) in the `Debug` form of an
   * `OsString`, which escapes single quotes as well.
   */
  function EnvAssignment(env: map<string, string>, key: string): (r: string)
    ensures |r| >= |key| + 3 && r[..|key| + 1] == key + "="
    ensures r[|key| + 1] == '"' && r[|r| - 1] == '"'
  {
    key + "=" + OsDebugStr(if key in env then env[key] else "")
  }

  /** One key's assignment is the key, `=`, and a quoted text that reads back as its value, or as "" when it is missing. */
  lemma EnvAssignmentReadsBack(env: map<string, string>, key: string)
    ensures var r := EnvAssignment(env, key);
      && |r| > |key| && r[..|key| + 1] == key + "="
      && UnquoteDebug(r[|key| + 1..]) == Some(if key in env then env[key] else "")
  {
    var value := if key in env then env[key] else "";
    OsDebugStrRoundTrip(value);
    var r := EnvAssignment(env, key);
    assert r[|key| + 1..] == OsDebugStr(value);
  }

  function EnvAssignments(env: map<string, string>, keys: seq<string>): (r: seq<string>)
    ensures |r| == |keys|
    ensures forall i | 0 <= i < |keys| :: r[i] == EnvAssignment(env, keys[i])
  {
    seq(|keys|, i requires 0 <= i < |keys| => EnvAssignment(env, keys[i]))
  }

  /**
   * `display_with_env_keys(cmd, env, keys)`: it ends with the display of the
   * command, and is exactly that display when there are no keys.
   */
  function DisplayWithEnvKeys(cmd: Command, env: seq<(string, string)>, keys: seq<string>): (r: string)
    ensures |r| >= |Display(cmd)| && r[|r| - |Display(cmd)|..] == Display(cmd)
    ensures keys == [] ==> r == Display(cmd)
  {
    JoinSnoc(" ", EnvAssignments(EnvMap(env), keys), Display(cmd));
    Join(" ", EnvAssignments(EnvMap(env), keys) + [Display(cmd)])
  }

  /**
   * The display with env keys is, for each key in order, its `KEY="value"`
   * followed by a space, and last the display of the command; with no keys
   * it is the display of the command.
   */
  lemma DisplayWithEnvKeysShape(cmd: Command, env: seq<(string, string)>, keys: seq<string>)
    ensures DisplayWithEnvKeys(cmd, env, keys) == SepAfterEach(" ", EnvAssignments(EnvMap(env), keys)) + Display(cmd)
    ensures keys == [] ==> DisplayWithEnvKeys(cmd, env, keys) == Display(cmd)
  {
    JoinSnoc(" ", EnvAssignments(EnvMap(env), keys), Display(cmd));
  }

  /** With one key, the display is that key's `KEY="value"`, a space, and the display of the command. */
  lemma DisplayWithOneKey(cmd: Command, env: seq<(string, string)>, key: string)
    ensures DisplayWithEnvKeys(cmd, env, [key]) == EnvAssignment(EnvMap(env), key) + " " + Display(cmd)
  {
    var a := EnvAssignment(EnvMap(env), key);
    assert EnvAssignments(EnvMap(env), [key]) == [a];
    var parts := [a] + [Display(cmd)];
    assert |parts| == 2 && parts[0] == a && parts[1..] == [Display(cmd)];
    assert Join(" ", parts[1..]) == Display(cmd);
  }

  /** A key with no pair in `env` renders as `KEY=""`. */
  lemma MissingKeyRendersEmpty(env: seq<(string, string)>, key: string)
    requires forall i | 0 <= i < |env| :: env[i].0 != key
    ensures EnvAssignment(EnvMap(env), key) == key + "=\"\""
  {
    assert key !in EnvMap(env);
    EmptyOsDebug();
    EmptyAssignmentText(key);
  }

  lemma EmptyOsDebug()
    ensures OsDebugStr("") == "\"\""
  {
    assert EscapeDebug("", true) == [];
  }

  lemma EmptyAssignmentText(key: string)
    ensures key + "=" + "\"\"" == key + "=\"\""
  {
    assert "=" + "\"\"" == "=\"\"";
  }

  /** `RAILS_ENV` set to `production`, with `bundle install`: `RAILS_ENV="production" bundle install`. */
  lemma RailsEnvExample()
    ensures DisplayWithEnvKeys(Command("bundle", ["install"]), [("RAILS_ENV", "production")], ["RAILS_ENV"])
         == "RAILS_ENV=\"production\" bundle install"
  {
    DisplayWithOneKey(Command("bundle", ["install"]), [("RAILS_ENV", "production")], "RAILS_ENV");
    RailsEnvAssignment();
    DisplayBundleInstall();
    RailsEnvText();
  }

  lemma RailsEnvAssignment()
    ensures EnvAssignment(EnvMap([("RAILS_ENV", "production")]), "RAILS_ENV")
         == "RAILS_ENV" + "=" + ("\"" + "production" + "\"")
  {
    EnvMapLastWins([("RAILS_ENV", "production")], 0);
    ProductionDebug();
  }

  lemma ProductionDebug()
    ensures OsDebugStr("production") == "\"" + "production" + "\""
  {
    assert forall i | 0 <= i < |"production"| :: 'a' <= "production"[i] <= 'z';
    EscapeDebugPlain("production", true);
  }

  /** A value with a single quote: `K` set to `it's` renders as `K="it\'s"`. */
  lemma SingleQuoteEnvValue()
    ensures EnvAssignment(EnvMap([("K", "it's")]), "K") == "K=\"it\\'s\""
  {
    EnvMapLastWins([("K", "it's")], 0);
    SingleQuoteOsDebug();
  }

  lemma SingleQuoteOsDebug()
    ensures OsDebugStr("it's") == "\"it\\'s\""
  {
    assert EscapeDebug("it's", true) == "it\\'s" by {
      assert "it's"[1..] == "t's" && "t's"[1..] == "'s" && "'s"[1..] == "s" && "s"[1..] == [];
    }
  }

  lemma RailsEnvText()
    ensures "RAILS_ENV" + "=" + ("\"" + "production" + "\"") + " " + "bundle install"
         == "RAILS_ENV=\"production\" bundle install"
  {
  }

  // ---------------------------------------------------------------------
  // NamedOutput

  /** `NamedOutput`: the `Output` of a command, with the command's name. */
  datatype NamedOutput = NamedOutput(name: string, output: Output) {

    /** `NamedOutput::stdout_lossy`: stdout as text; stdout that is UTF-8 text reads as that text. */
    function StdoutLossy(): (r: string)
      ensures forall s :: output.stdout == Utf8Encode(s) ==> r == s
    {
      LossyOfEncodeAll();
      Utf8Lossy(output.stdout)
    }

    /** `NamedOutput::stderr_lossy`: stderr as text; stderr that is UTF-8 text reads as that text. */
    function StderrLossy(): (r: string)
      ensures forall s :: output.stderr == Utf8Encode(s) ==> r == s
    {
      LossyOfEncodeAll();
      Utf8Lossy(output.stderr)
    }
  }

  // ---------------------------------------------------------------------
  // CmdError

  /** `CmdError`. */
  datatype CmdError =
    | SystemError(name: string, error: IoError)
    | NonZeroExitNotStreamed(named: NamedOutput)
    | NonZeroExitAlreadyStreamed(named: NamedOutput)
  {
    /** `CmdError::name`: the name the error carries, whichever the variant. */
    function Name(): (r: string)
      ensures SystemError? ==> r == name
      ensures !SystemError? ==> r == named.name
    {
      match this
      case SystemError(n, _) => n
      case NonZeroExitNotStreamed(o) => o.name
      case NonZeroExitAlreadyStreamed(o) => o.name
    }

    /**
     * `CmdError::status`: the wrapped output's status for a non-zero exit;
     * for a system error, the raw OS error code read as a wait status, or -1
     * (not a success, and without a code) when there is none.
     */
    function Status(): (r: ExitStatus)
      ensures !SystemError? ==> r == named.output.status
      ensures SystemError? ==> r.raw == error.rawOsError.UnwrapOr(-1)
      ensures SystemError? && error.rawOsError.None? ==> !r.Success() && r.Code().None?
    {
      match this
      case SystemError(_, e) => ExitStatus(e.rawOsError.UnwrapOr(-1))
      case NonZeroExitNotStreamed(o) => o.output.status
      case NonZeroExitAlreadyStreamed(o) => o.output.status
    }
  }

  /** `on_system_error(name, error)`. */
  function OnSystemError(name: string, error: IoError): (r: CmdError)
    ensures r.SystemError? && r.Name() == name && r.error == error
  {
    SystemError(name, error)
  }

  /**
   * `From<CmdError> for NamedOutput`: a non-zero exit gives back the output
   * it wraps; a system error gives an output with the same name, empty
   * stdout, the error's message as stderr, and the status `CmdError::status`
   * reports.
   */
  function NamedOutputFrom(e: CmdError): (r: NamedOutput)
    ensures r.name == e.Name() && r.output.status == e.Status()
    ensures !e.SystemError? ==> r == e.named
    ensures e.SystemError? ==> r.output.stdout == [] && r.output.stderr == Utf8Encode(e.error.message)
    ensures e.SystemError? ==> r.StderrLossy() == e.error.message
  {
    match e
    case SystemError(name, error) =>
      NamedOutput(name, Output(ExitStatus(error.rawOsError.UnwrapOr(-1)), [], Utf8Encode(error.message)))
    case NonZeroExitNotStreamed(named) => named
    case NonZeroExitAlreadyStreamed(named) => named
  }

  // ---------------------------------------------------------------------
  // Status checks

  /** The name a command's result carries, on the `Ok` and on the `Err` path. */
  function ResultName(r: Result<NamedOutput, CmdError>): string {
    match r
    case Ok(o) => o.name
    case Err(e) => e.Name()
  }

  /**
   * `nonzero_streamed(name, output)`: `Ok` exactly when the status is a
   * success; either way the result carries `name` and `output` unchanged, and
   * the error is the variant that does not repeat the output.
   */
  function NonzeroStreamed(name: string, output: Output): (r: Result<NamedOutput, CmdError>)
    ensures r.Ok? <==> output.status.Success()
    ensures ResultName(r) == name
    ensures r.Ok? ==> r.value.output == output
    ensures r.Err? ==> r.error.NonZeroExitAlreadyStreamed? && r.error.named.output == output
  {
    if output.status.Success() then Ok(NamedOutput(name, output))
    else Err(NonZeroExitAlreadyStreamed(NamedOutput(name, output)))
  }

  /**
   * `nonzero_captured(name, output)`: as `nonzero_streamed`, but the error is
   * the variant whose message shows the captured output.
   */
  function NonzeroCaptured(name: string, output: Output): (r: Result<NamedOutput, CmdError>)
    ensures r.Ok? <==> output.status.Success()
    ensures ResultName(r) == name
    ensures r.Ok? ==> r.value.output == output
    ensures r.Err? ==> r.error.NonZeroExitNotStreamed? && r.error.named.output == output
  {
    if output.status.Success() then Ok(NamedOutput(name, output))
    else Err(NonZeroExitNotStreamed(NamedOutput(name, output)))
  }

  /** The two status checks agree on everything but the error variant. */
  lemma StreamedAndCapturedAgree(name: string, output: Output)
    ensures NonzeroStreamed(name, output).Ok? <==> NonzeroCaptured(name, output).Ok?
    ensures NonzeroStreamed(name, output).Ok? ==> NonzeroStreamed(name, output) == NonzeroCaptured(name, output)
    ensures NonzeroStreamed(name, output).Err? ==>
      NamedOutputFrom(NonzeroStreamed(name, output).error) == NamedOutputFrom(NonzeroCaptured(name, output).error)
  {
  }

  // ---------------------------------------------------------------------
  // Naming commands

  /** `NamedCommand`: a command with the name given to it. */
  datatype NamedCommand = NamedCommand(name: string, command: Command)

  /** A value of one of the two types that implement `CommandWithName`. */
  datatype CommandWithName = PlainCommand(command: Command) | Renamed(named: NamedCommand) {

    /** `CommandWithName::name`: the display of a plain command, the given name of a renamed one. */
    function Name(): (r: string)
      ensures PlainCommand? ==> r == Display(command)
      ensures Renamed? ==> r == named.name
    {
      match this
      case PlainCommand(c) => Display(c)
      case Renamed(n) => n.name
    }

    /** `CommandWithName::mut_cmd`: the underlying command, whether or not it was renamed. */
    function MutCmd(): (r: Command)
      ensures PlainCommand? ==> r == command
      ensures Renamed? ==> r == named.command
    {
      match this
      case PlainCommand(c) => c
      case Renamed(n) => n.command
    }

    /** `CommandWithName::named(s)`: the same command, named `s`. */
    function Named(s: string): (r: NamedCommand)
      ensures Renamed(r).Name() == s
      ensures Renamed(r).MutCmd() == MutCmd()
    {
      NamedCommand(s, MutCmd())
    }

    /**
     * `CommandWithName::named_fn(f)`: `f` is handed the command (it may
     * change it, through `&mut`), and the command as `f` leaves it is named
     * with the string `f` returns.
     */
    function NamedFn(f: Command -> (string, Command)): (r: NamedCommand)
      ensures Renamed(r).Name() == f(MutCmd()).0
      ensures Renamed(r).MutCmd() == f(MutCmd()).1
    {
      var (name, cmd) := f(MutCmd());
      NamedCommand(name, cmd)
    }
  }

  /** Renaming twice keeps only the last name, and the command throughout. */
  lemma NamedTwice(w: CommandWithName, s: string, t: string)
    ensures Renamed(Renamed(w.Named(s)).Named(t)) == Renamed(w.Named(t))
  {
  }

  /**
   * `CommandWithName::named_output`, given what `Command::output` returned:
   * a failure to run is a `SystemError`, a non-zero exit the error that shows
   * the output. The command's name is kept on every path.
   */
  function NamedOutputResult(w: CommandWithName, run: Result<Output, IoError>): (r: Result<NamedOutput, CmdError>)
    ensures ResultName(r) == w.Name()
    ensures r.Ok? <==> run.Ok? && run.value.status.Success()
    ensures run.Err? ==> r == Err(SystemError(w.Name(), run.error))
    ensures run.Ok? ==> r == NonzeroCaptured(w.Name(), run.value)
  {
    match run
    case Err(e) => Err(SystemError(w.Name(), e))
    case Ok(output) => NonzeroCaptured(w.Name(), output)
  }

  /**
   * `CommandWithName::stream_output`, given what `output_and_write_streams`
   * returned: a failure is a `SystemError`, a non-zero exit the error that
   * does not repeat the (already streamed) output. The command's name is kept
   * on every path.
   */
  function StreamOutput(w: CommandWithName, run: Result<Output, IoError>): (r: Result<NamedOutput, CmdError>)
    ensures ResultName(r) == w.Name()
    ensures r.Ok? <==> run.Ok? && run.value.status.Success()
    ensures run.Err? ==> r == Err(SystemError(w.Name(), run.error))
    ensures run.Ok? ==> r == NonzeroStreamed(w.Name(), run.value)
  {
    match run
    case Err(e) => Err(SystemError(w.Name(), e))
    case Ok(output) => NonzeroStreamed(w.Name(), output)
  }

  /** A command renamed with `named(s)` reports `s` as its name on every outcome of `stream_output`. */
  lemma StreamOutputNamed(w: CommandWithName, s: string, run: Result<Output, IoError>)
    ensures ResultName(StreamOutput(Renamed(w.Named(s)), run)) == s
    ensures ResultName(NamedOutputResult(Renamed(w.Named(s)), run)) == s
  {
  }

  /** The command of the first rename example: `gem install bundler -v 2.4.1.7`. */
  const GemInstallBundler := Command("gem", ["install", "bundler", "-v", "2.4.1.7"])

  /**
   * The rename example as written asserts the name `bundle install` on both
   * paths, but the command was renamed `gem install`: on no outcome is its
   * name `bundle install`.
   */
  lemma GemInstallExampleAsWritten(run: Result<Output, IoError>)
    ensures ResultName(StreamOutput(Renamed(PlainCommand(GemInstallBundler).Named("gem install")), run)) != "bundle install"
  {
    GemInstallExampleNamed(run);
    assert "gem install"[0] != "bundle install"[0];
  }

  /** The name the rename example evidently means to check: `gem install`, on every outcome. */
  lemma GemInstallExampleNamed(run: Result<Output, IoError>)
    ensures ResultName(StreamOutput(Renamed(PlainCommand(GemInstallBundler).Named("gem install")), run)) == "gem install"
  {
    StreamOutputNamed(PlainCommand(GemInstallBundler), "gem install", run);
  }

  // ---------------------------------------------------------------------
  // Error messages

  /**
   * `display_out_or_empty(contents)`: `<empty>` when the text of the
   * contents is nothing but whitespace, the text itself otherwise.
   */
  function DisplayOutOrEmpty(contents: seq<byte>): (r: string)
    ensures AllWhitespace(Utf8Lossy(contents)) ==> r == "<empty>"
    ensures !AllWhitespace(Utf8Lossy(contents)) ==> r == Utf8Lossy(contents)
  {
    var text := Utf8Lossy(contents);
    TrimEmptyIff(text);
    if Trim(text) == [] then "<empty>" else text
  }

  /** The exit status as the messages print it: the code, or 1 when there is none. */
  function StatusText(s: ExitStatus): (r: string)
    ensures ParseDecimal(r) == Some(s.Code().UnwrapOr(1))
    ensures r != [] && (r[0] == '0' ==> r == "0")
    ensures forall i | 0 <= i < |r| :: IsDigit(r[i])
  {
    DecimalRoundTrip(s.Code().UnwrapOr(1));
    IntToDecimal(s.Code().UnwrapOr(1))
  }

  /** The start of the second line of both non-zero messages. */
  function FailedPrefix(name: string): string {
    "Command failed `" + name + "`\nexit status: "
  }

  /** The first two lines of both non-zero messages: the name, then the status, each ending in a newline. */
  function FailureHeader(o: NamedOutput): (r: string)
    ensures var p := FailedPrefix(o.name);
      && |r| > |p| && r[..|p|] == p && r[|r| - 1] == '\n'
      && ParseDecimal(r[|p|..|r| - 1]) == Some(o.output.status.Code().UnwrapOr(1))
  {
    var p := FailedPrefix(o.name);
    var t := StatusText(o.output.status);
    assert (p + t + "\n")[|p|..|p + t + "\n"| - 1] == t;
    p + t + "\n"
  }

  /**
   * `Display for CmdError`: a non-zero exit's message starts with the failure
   * header; a system error's ends with the error's own message.
   */
  function Message(e: CmdError): (r: string)
    ensures !e.SystemError? ==> |r| > |FailureHeader(e.named)| && r[..|FailureHeader(e.named)|] == FailureHeader(e.named)
    ensures e.SystemError? ==> |r| > |e.error.message| && r[|r| - |e.error.message|..] == e.error.message
  {
    match e
    case SystemError(name, error) =>
      "Could not run command `" + name + "`. " + error.message
    case NonZeroExitNotStreamed(o) => FailureHeader(o) + StreamLines(e)
    case NonZeroExitAlreadyStreamed(o) => FailureHeader(o) + StreamLines(e)
  }

  /** The last two lines of a non-zero message: the captured text, or `<see above>` once streamed. */
  function StreamLines(e: CmdError): (r: string)
    requires !e.SystemError?
    ensures |r| > 8 && r[..8] == "stdout: "
  {
    if e.NonZeroExitAlreadyStreamed? then "stdout: <see above>\nstderr: <see above>"
    else
      "stdout: " + DisplayOutOrEmpty(e.named.output.stdout)
      + "\nstderr: " + DisplayOutOrEmpty(e.named.output.stderr)
  }

  /**
   * The message of an already-streamed failure does not depend on the
   * captured bytes: it shows `<see above>` for both streams.
   */
  lemma AlreadyStreamedHidesOutput(o: NamedOutput, stdout: seq<byte>, stderr: seq<byte>)
    ensures Message(NonZeroExitAlreadyStreamed(o))
         == Message(NonZeroExitAlreadyStreamed(o.(output := o.output.(stdout := stdout, stderr := stderr))))
  {
  }

  /**
   * The full message of an already-streamed failure: the command's name, the
   * exit status, and `<see above>` for both streams.
   */
  lemma AlreadyStreamedMessage(o: NamedOutput)
    ensures Message(NonZeroExitAlreadyStreamed(o))
         == FailureHeader(o) + "stdout: <see above>\nstderr: <see above>"
    ensures FailureHeader(o)
         == "Command failed `" + o.name + "`\nexit status: " + StatusText(o.output.status) + "\n"
  {
  }

  /**
   * A captured failure shows, after its header, the lossy text of each
   * captured stream, or `<empty>` for one whose text is only whitespace,
   * whatever bytes were captured.
   */
  lemma NotStreamedMessage(o: NamedOutput)
    ensures var out, err := Utf8Lossy(o.output.stdout), Utf8Lossy(o.output.stderr);
      Message(NonZeroExitNotStreamed(o))
         == FailureHeader(o) + (
            "stdout: " + (if AllWhitespace(out) then "<empty>" else out)
            + "\nstderr: " + (if AllWhitespace(err) then "<empty>" else err))
  {
    var e := NonZeroExitNotStreamed(o);
    assert Message(e) == FailureHeader(o) + StreamLines(e);
  }

  /**
   * A captured failure whose stdout and stderr are UTF-8 text shows each
   * text, or `<empty>` for one that is only whitespace.
   */
  lemma NotStreamedShowsOutput(o: NamedOutput, out: string, err: string)
    requires o.output.stdout == Utf8Encode(out) && o.output.stderr == Utf8Encode(err)
    ensures Message(NonZeroExitNotStreamed(o))
         == FailureHeader(o) + (
            "stdout: " + (if AllWhitespace(out) then "<empty>" else out)
            + "\nstderr: " + (if AllWhitespace(err) then "<empty>" else err))
  {
    LossyOfEncode(out);
    LossyOfEncode(err);
    NotStreamedMessage(o);
  }

  /** Every non-zero message starts with its header, whose status line reads back as the code (or 1). */
  lemma StatusLineReadsBack(e: CmdError)
    requires !e.SystemError?
    ensures var h := FailureHeader(e.named);
      var start := |FailedPrefix(e.Name())|;
      && |h| > start
      && Message(e)[..|h|] == h
      && ParseDecimal(h[start..|h| - 1]) == Some(e.Status().Code().UnwrapOr(1))
  {
    var o := e.named;
    var h := FailureHeader(o);
    var p := FailedPrefix(o.name);
    var t := StatusText(o.output.status);
    assert h == p + t + "\n";
    assert h[|p|..|h| - 1] == t;
    assert Message(e) == h + StreamLines(e);
  }

  /** A system error's message names the command and ends with the error's own message. */
  lemma SystemErrorMessage(name: string, error: IoError)
    ensures var m := Message(SystemError(name, error));
      var prefix := "Could not run command `" + name + "`. ";
      && m[..|prefix|] == prefix
      && m[|prefix|..] == error.message
  {
  }
}
