/**
 * What every Gradle tool handler shares: checking the project path,
 * assembling the launcher's tasks and arguments, turning the outcome of a
 * build into a `BuildResult`, and the textual summary of that result.
 *
 * The build itself runs in the Gradle daemon; it is the parameter `run`,
 * which maps what was handed to the launcher to what the launcher reported.
 */
module BaseHandler {
  import opened Wrappers
  import opened JavaStrings
  import opened Files
  import opened Connections

  /** `BuildResult`: the captured streams and the wall-clock duration of a build. */
  datatype BuildResult = BuildResult(success: bool, output: string, errors: string, durationMs: int)

  /** What the `BuildLauncher` was configured with: `None` where the setter was not called. */
  datatype LaunchConfig = LaunchConfig(tasks: Option<seq<string>>, arguments: Option<seq<string>>)

  /** What `launcher.run()` did: returned normally, or threw an exception with an optional message. */
  datatype BuildOutcome =
    | Completed(output: string, errors: string, durationMs: int)
    | Threw(output: string, errors: string, message: Option<string>)

  /** A `CallToolResult` with one text content: `createSuccessResult` or `createErrorResult`. */
  datatype ToolResult = ToolResult(isError: bool, text: string)

  /**
   * `e.getMessage()` of an exception that `executeBuild` lets through; the
   * message of the connector's own exception is `connectMessage`.
   */
  function ErrorMessage(e: Error, connectMessage: string): string {
    match e
    case IllegalArgument(message) => message
    case ConnectFailed => connectMessage
  }

  const ConsoleFlag := "--console"
  const ConsolePlain := "--console=plain"

  /** `validateProjectPath`, resolving the path against the working directory `cwd`. */
  function ValidateProjectPath(cwd: string, fs: FileSystem, projectPath: Option<string>): Result<(), Error> {
    match projectPath
    case None => Failure(IllegalArgument("Project path cannot be null or empty"))
    case Some(p) =>
      if Trim(p) == "" then Failure(IllegalArgument("Project path cannot be null or empty"))
      else if !Exists(fs, AbsolutePath(cwd, p)) then Failure(IllegalArgument("Project directory does not exist: " + p))
      else if !IsDirectory(fs, AbsolutePath(cwd, p)) then Failure(IllegalArgument("Project path is not a directory: " + p))
      else Success(())
  }

  /**
   * A path passes validation exactly when it is present, not blank, and
   * names an existing directory; every rejection is an
   * IllegalArgumentException.
   */
  lemma ValidationAccepts(cwd: string, fs: FileSystem, projectPath: Option<string>)
    ensures ValidateProjectPath(cwd, fs, projectPath).Success? <==>
              projectPath.Some? && !IsBlank(projectPath.value) && IsDirectory(fs, AbsolutePath(cwd, projectPath.value))
    ensures ValidateProjectPath(cwd, fs, projectPath).Failure? ==> ValidateProjectPath(cwd, fs, projectPath).error.IllegalArgument?
    ensures projectPath.Some? && IsBlank(projectPath.value) ==>
              ValidateProjectPath(cwd, fs, projectPath) == Failure(IllegalArgument("Project path cannot be null or empty"))
  {
  }

  /** The tasks handed to the launcher: only a present, non-empty list is set. */
  function LaunchTasks(tasks: Option<seq<string>>): (r: Option<seq<string>>)
    ensures r.Some? <==> tasks.Some? && tasks.value != []
    ensures r.Some? ==> r == tasks
  {
    if tasks.Some? && tasks.value != [] then tasks else None
  }

  /** The caller's arguments, then `--console=plain` unless `--console` is already one of them. */
  function LaunchArguments(arguments: Option<seq<string>>): seq<string> {
    var given := arguments.GetOr([]);
    if ConsoleFlag in given then given else given + [ConsolePlain]
  }

  /**
   * `allArguments` in `executeBuild`, built in place: the caller's
   * arguments, then the plain-console default.
   */
  method AssembleArguments(arguments: Option<seq<string>>) returns (all: seq<string>)
    ensures all == LaunchArguments(arguments)
  {
    all := [];
    if arguments.Some? {
      all := all + arguments.value;
    }
    if ConsoleFlag !in all {
      all := all + [ConsolePlain];
    }
  }

  /**
   * The launcher gets the caller's arguments first and in order, and one
   * more, `--console=plain`, exactly when `--console` is not among them;
   * so the argument list is never empty and `withArguments` is always called.
   */
  lemma LaunchArgumentsShape(arguments: Option<seq<string>>)
    ensures var given := arguments.GetOr([]);
            var all := LaunchArguments(arguments);
            && all[..|given|] == given
            && (|all| == |given| + 1 <==> ConsoleFlag !in given)
            && (|all| == |given| + 1 ==> all[|given|] == ConsolePlain)
            && |all| == |given| + (if ConsoleFlag in given then 0 else 1)
            && all != []
  {
  }

  /**
   * Only the separate-token form `--console` is recognised: a caller who
   * passes `--console=rich` still gets `--console=plain` after it.
   */
  lemma ConsoleValueFormNotRecognised()
    ensures LaunchArguments(Some(["--console=rich"])) == ["--console=rich", ConsolePlain]
    ensures LaunchArguments(Some([ConsoleFlag, "rich"])) == [ConsoleFlag, "rich"]
  {
  }

  /** What `executeBuild` configures the launcher with. */
  function Configure(tasks: Option<seq<string>>, arguments: Option<seq<string>>): LaunchConfig {
    var all := LaunchArguments(arguments);
    LaunchConfig(LaunchTasks(tasks), if all != [] then Some(all) else None)
  }

  /**
   * The `BuildResult` of a build outcome: a normal return succeeds with the
   * measured duration; an exception fails with duration 0, and the
   * exception's message stands in for the error stream only when that
   * stream is empty and the message is not null.
   */
  function Completion(outcome: BuildOutcome): BuildResult {
    match outcome
    case Completed(output, errors, durationMs) => BuildResult(true, output, errors, durationMs)
    case Threw(output, errors, message) =>
      BuildResult(false, output, if errors == "" && message.Some? then message.value else errors, 0)
  }

  lemma CompletionContract(outcome: BuildOutcome)
    ensures Completion(outcome).success <==> outcome.Completed?
    ensures Completion(outcome).output == outcome.output
    ensures outcome.Threw? ==> Completion(outcome).durationMs == 0
    ensures outcome.Threw? && outcome.errors != "" ==> Completion(outcome).errors == outcome.errors
    ensures outcome.Threw? && outcome.errors == "" ==> Completion(outcome).errors == outcome.message.GetOr("")
    ensures outcome.Completed? ==> Completion(outcome) == BuildResult(true, outcome.output, outcome.errors, outcome.durationMs)
  {
  }

  /**
   * `executeBuild` on the cache `c`: validation, then `getConnection`, then
   * the build; an exception from either of the first two reaches the caller.
   */
  function Execute(c: Cache, cwd: string, projectPath: Option<string>, tasks: Option<seq<string>>,
                   arguments: Option<seq<string>>, now: nat, fs: FileSystem, reachable: bool,
                   run: LaunchConfig -> BuildOutcome): (Cache, Result<BuildResult, Error>)
  {
    match ValidateProjectPath(cwd, fs, projectPath)
    case Failure(e) => (c, Failure(e))
    case Success(_) =>
      var (c', connection) := Acquire(c, AbsolutePath(cwd, projectPath.value), now, fs, reachable);
      match connection
      case Failure(e) => (c', Failure(e))
      case Success(_) => (c', Success(Completion(run(Configure(tasks, arguments)))))
  }

  /**
   * A rejected path touches no connection; otherwise the cache changes as
   * `getConnection` changes it, and a build that ran reports what the
   * launcher, configured with the assembled tasks and arguments, reported.
   */
  lemma ExecuteContract(c: Cache, cwd: string, projectPath: Option<string>, tasks: Option<seq<string>>,
                        arguments: Option<seq<string>>, now: nat, fs: FileSystem, reachable: bool,
                        run: LaunchConfig -> BuildOutcome)
    ensures var (c', r) := Execute(c, cwd, projectPath, tasks, arguments, now, fs, reachable, run);
            && (ValidateProjectPath(cwd, fs, projectPath).Failure? ==>
                  c' == c && r == Failure(ValidateProjectPath(cwd, fs, projectPath).error))
            && (ValidateProjectPath(cwd, fs, projectPath).Success? ==>
                  c' == Acquire(c, AbsolutePath(cwd, projectPath.value), now, fs, reachable).0)
            && (r.Success? ==>
                  Acquire(c, AbsolutePath(cwd, projectPath.value), now, fs, reachable).1.Success? &&
                  r.value == Completion(run(LaunchConfig(LaunchTasks(tasks), Some(LaunchArguments(arguments))))))
  {
    LaunchArgumentsShape(arguments);
  }

  /** `executeBuild` against the connection manager. */
  method ExecuteBuild(manager: ConnectionManager, projectPath: Option<string>, tasks: Option<seq<string>>,
                      arguments: Option<seq<string>>, now: nat, fs: FileSystem, reachable: bool,
                      run: LaunchConfig -> BuildOutcome) returns (r: Result<BuildResult, Error>)
    requires manager.Valid()
    modifies manager, manager.connections.Values
    ensures manager.Valid()
    ensures (manager.Abstract(), r) ==
            Execute(old(manager.Abstract()), manager.workingDir, projectPath, tasks, arguments, now, fs, reachable, run)
  {
    var valid := ValidateProjectPath(manager.workingDir, fs, projectPath);
    if valid.Failure? {
      return Failure(valid.error);
    }
    var connection := manager.GetConnection(projectPath.value, now, fs, reachable);
    if connection.Failure? {
      return Failure(connection.error);
    }
    var launchTasks := LaunchTasks(tasks);
    var all := AssembleArguments(arguments);
    var launchArguments := if all != [] then Some(all) else None;
    var outcome := run(LaunchConfig(launchTasks, launchArguments));
    return Success(Completion(outcome));
  }

  /** The first lines of `getSummary`: the verdict, and the time of a successful build. */
  function SummaryHeading(r: BuildResult, seconds: string): string {
    if r.success then
      "BUILD SUCCESSFUL\n" + (if r.durationMs > 0 then "Total time: " + seconds + " seconds\n" else "")
    else "BUILD FAILED\n"
  }

  /** The rest of `getSummary`: the output section, then the errors section, each only when non-empty. */
  function SummarySections(r: BuildResult): string {
    (if r.output != "" then "\nOutput:\n" + r.output else "")
    + (if r.errors != "" then "\nErrors:\n" + r.errors else "")
  }

  /**
   * `getSummary`, given the duration already formatted as `%.2f` seconds
   * (`seconds`), since floating-point formatting is not modelled.
   */
  function Summary(r: BuildResult, seconds: string): string {
    SummaryHeading(r, seconds) + SummarySections(r)
  }

  /** A string that starts with a character other than `p`'s at position `i` does not start with `p`. */
  lemma DiffersAt(a: string, b: string, p: string, i: nat)
    requires i < |a| && i < |p| && a[i] != p[i]
    ensures !StartsWith(a + b, p)
  {
    if |p| <= |a + b| {
      assert (a + b)[..|p|][i] == a[i];
    }
  }

  /** Every string starts with its own prefix `a`, whatever follows. */
  lemma PrefixOfConcat(a: string, b: string, p: string)
    requires StartsWith(a, p)
    ensures StartsWith(a + b, p)
  {
    assert (a + b)[..|p|] == a[..|p|];
  }

  /**
   * The summary opens with "BUILD SUCCESSFUL\n" exactly when the build
   * succeeded and with "BUILD FAILED\n" exactly when it did not.
   */
  lemma SummaryVerdict(r: BuildResult, seconds: string)
    ensures StartsWith(Summary(r, seconds), "BUILD SUCCESSFUL\n") <==> r.success
    ensures StartsWith(Summary(r, seconds), "BUILD FAILED\n") <==> !r.success
  {
    var heading, sections := SummaryHeading(r, seconds), SummarySections(r);
    if r.success {
      PrefixOfConcat(heading, sections, "BUILD SUCCESSFUL\n");
      DiffersAt(heading, sections, "BUILD FAILED\n", 6);
    } else {
      PrefixOfConcat(heading, sections, "BUILD FAILED\n");
      DiffersAt(heading, sections, "BUILD SUCCESSFUL\n", 6);
    }
  }

  /** The summary reports the time only for a successful build with a positive duration. */
  lemma SummaryReportsTime(r: BuildResult, seconds: string)
    ensures StartsWith(Summary(r, seconds), "BUILD SUCCESSFUL\nTotal time: ") <==> r.success && r.durationMs > 0
  {
    var heading, sections := SummaryHeading(r, seconds), SummarySections(r);
    if !r.success {
      DiffersAt(heading, sections, "BUILD SUCCESSFUL\nTotal time: ", 6);
    } else if r.durationMs > 0 {
      PrefixOfConcat(heading, sections, "BUILD SUCCESSFUL\nTotal time: ");
    } else if sections != [] {
      assert heading == "BUILD SUCCESSFUL\n";
      assert (heading + sections)[17] == sections[0] == '\n';
    }
  }

  /**
   * The summary ends with the error stream when there is one, otherwise
   * with the output when there is one, otherwise it is the header alone.
   */
  lemma SummaryTail(r: BuildResult, seconds: string)
    ensures r.errors != "" ==> EndsWith(Summary(r, seconds), "\nErrors:\n" + r.errors)
    ensures r.errors == "" && r.output != "" ==> EndsWith(Summary(r, seconds), "\nOutput:\n" + r.output)
    ensures r.errors == "" && r.output == "" && !r.success ==> Summary(r, seconds) == "BUILD FAILED\n"
    ensures r.errors == "" && r.output == "" && r.success && r.durationMs <= 0 ==> Summary(r, seconds) == "BUILD SUCCESSFUL\n"
  {
  }

  /**
   * A build that threw with an empty error stream reports the exception's
   * message at the end of its summary.
   */
  lemma ThrownMessageReported(output: string, message: string, seconds: string)
    requires message != ""
    ensures var s := Summary(Completion(Threw(output, "", Some(message))), seconds);
            StartsWith(s, "BUILD FAILED\n") && EndsWith(s, "\nErrors:\n" + message)
  {
    SummaryVerdict(Completion(Threw(output, "", Some(message))), seconds);
    SummaryTail(Completion(Threw(output, "", Some(message))), seconds);
  }

  /**
   * The output and error sections that close the responses of the test
   * and clean tools, each only when non-empty.
   */
  function StreamSections(build: BuildResult): string {
    (if build.output != "" then "Output:\n" + build.output else "")
    + (if build.errors != "" then "\nErrors:\n" + build.errors else "")
  }

  /** What the two stream appends add is the streams section. */
  lemma StreamsAppended(counted: string, written: string, response: string, build: BuildResult)
    requires written == if build.output != "" then counted + "Output:\n" + build.output else counted
    requires response == if build.errors != "" then written + "\nErrors:\n" + build.errors else written
    ensures response == counted + StreamSections(build)
  {
    var output := if build.output != "" then "Output:\n" + build.output else "";
    var errors := if build.errors != "" then "\nErrors:\n" + build.errors else "";
    assert written == counted + output;
    assert response == written + errors;
  }

  /** The streams sections open with "Output" or with a blank line. */
  lemma StreamsOpening(build: BuildResult)
    ensures var streams := StreamSections(build);
            streams != [] ==> streams[0] == 'O' || streams[0] == '\n'
  {
  }
}
