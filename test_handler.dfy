/**
 * The `gradle_test` tool: the task and argument lists it hands to the
 * launcher, the test counts it reads from Gradle's output, and the text it
 * answers with.
 *
 * TEST_SUMMARY_PATTERN, which matches "N tests completed" optionally
 * followed by ", N failed" and ", N skipped", is not interpreted here: its
 * first match in the output is the parameter `find`, which yields the three
 * numbers as capture groups, the last two optional.
 */
module TestRun {
  import opened Wrappers
  import opened JavaStrings
  import opened Files
  import opened Connections
  import opened BaseHandler

  /** The capture groups of TEST_SUMMARY_PATTERN's first match. */
  datatype SummaryMatch = SummaryMatch(total: string, failed: Option<string>, skipped: Option<string>)

  type SummaryFinder = string -> Option<SummaryMatch>

  /** `TestResults`: the four counters, Java `int`s. */
  datatype TestResults = TestResults(total: int, passed: int, failed: int, skipped: int)

  const TestTask := "test"
  const IntegrationTestTask := "integrationTest"
  const TestsFlag := "--tests"
  const ParallelFlag := "--parallel"
  const InfoFlag := "--info"
  /** What an omitted `includeIntegrationTests` or `parallel` argument means. */
  const DefaultIncludeIntegrationTests := false
  const DefaultParallel := false

  /** Whether a test filter was given: present and not empty. */
  predicate Filtered(testFilter: Option<string>) {
    testFilter.Some? && testFilter.value != ""
  }

  /** The arguments the caller asked for: their own, then the filter, then parallel execution. */
  function RequestedArguments(additionalArgs: Option<seq<string>>, testFilter: Option<string>, parallel: bool): seq<string> {
    additionalArgs.GetOr([])
    + (if Filtered(testFilter) then [TestsFlag, testFilter.value] else [])
    + (if parallel then [ParallelFlag] else [])
  }

  /** The arguments handed to the launcher: the requested ones, with `--info` added where missing. */
  function TestArguments(additionalArgs: Option<seq<string>>, testFilter: Option<string>, parallel: bool): seq<string> {
    var requested := RequestedArguments(additionalArgs, testFilter, parallel);
    if InfoFlag in requested then requested else requested + [InfoFlag]
  }

  /** The task list and the argument list `handle` builds in place. */
  method BuildTestLaunch(includeIntegrationTests: bool, additionalArgs: Option<seq<string>>, testFilter: Option<string>,
                         parallel: bool) returns (tasks: seq<string>, gradleArgs: seq<string>)
    ensures |tasks| >= 1 && tasks[0] == TestTask
    ensures IntegrationTestTask in tasks <==> includeIntegrationTests
    ensures tasks == [TestTask] || tasks == [TestTask, IntegrationTestTask]
    ensures gradleArgs == TestArguments(additionalArgs, testFilter, parallel)
  {
    tasks := [TestTask];
    if includeIntegrationTests {
      tasks := tasks + [IntegrationTestTask];
    }
    gradleArgs := [];
    if additionalArgs.Some? {
      gradleArgs := gradleArgs + additionalArgs.value;
    }
    if testFilter.Some? && testFilter.value != "" {
      gradleArgs := gradleArgs + [TestsFlag];
      gradleArgs := gradleArgs + [testFilter.value];
    }
    if parallel {
      gradleArgs := gradleArgs + [ParallelFlag];
    }
    assert gradleArgs == RequestedArguments(additionalArgs, testFilter, parallel);
    if InfoFlag !in gradleArgs {
      gradleArgs := gradleArgs + [InfoFlag];
    }
  }

  /**
   * The caller's arguments come first and in order; then `--tests` and the
   * filter exactly when a filter was given; then `--parallel` exactly when
   * asked for; nothing else is requested.
   */
  lemma RequestedArgumentsOrder(additionalArgs: Option<seq<string>>, testFilter: Option<string>, parallel: bool)
    ensures var given := additionalArgs.GetOr([]);
            var requested := RequestedArguments(additionalArgs, testFilter, parallel);
            var filterLength := if Filtered(testFilter) then 2 else 0;
            && |requested| == |given| + filterLength + (if parallel then 1 else 0)
            && requested[..|given|] == given
            && (Filtered(testFilter) ==> requested[|given|] == TestsFlag && requested[|given| + 1] == testFilter.value)
            && (parallel ==> requested[|given| + filterLength] == ParallelFlag)
  {
    var given := additionalArgs.GetOr([]);
    var filter := if Filtered(testFilter) then [TestsFlag, testFilter.value] else [];
    var requested := RequestedArguments(additionalArgs, testFilter, parallel);
    assert requested == given + filter + (if parallel then [ParallelFlag] else []);
    assert requested[..|given|] == given;
  }

  /**
   * The launcher gets the requested arguments first and unchanged, and
   * `--info` is always among them: added once at the end exactly when the
   * request lacks it, so a caller's `--info` is never duplicated.
   */
  lemma InfoAddedOnce(additionalArgs: Option<seq<string>>, testFilter: Option<string>, parallel: bool)
    ensures var requested := RequestedArguments(additionalArgs, testFilter, parallel);
            var args := TestArguments(additionalArgs, testFilter, parallel);
            && args[..|requested|] == requested
            && InfoFlag in args
            && |args| == |requested| + (if InfoFlag in requested then 0 else 1)
            && multiset(args)[InfoFlag] == (if InfoFlag in requested then multiset(requested)[InfoFlag] else 1)
  {
    var requested := RequestedArguments(additionalArgs, testFilter, parallel);
    var args := TestArguments(additionalArgs, testFilter, parallel);
    assert args[..|requested|] == requested;
    if InfoFlag !in requested {
      assert multiset(args) == multiset(requested) + multiset{InfoFlag};
      assert InfoFlag !in multiset(requested);
    }
  }

  /** Java's `int` subtraction: the difference wrapped to 32 bits. */
  function Int32Sub(a: int, b: int): (r: int)
    ensures Int32Min <= r <= Int32Max
    ensures (r - (a - b)) % 0x1_0000_0000 == 0
    ensures Int32Min <= a - b <= Int32Max ==> r == a - b
  {
    (a - b - Int32Min) % 0x1_0000_0000 + Int32Min
  }

  /** An optional count: 0 when its group did not take part in the match. */
  function OptionalCount(group: Option<string>): Option<int> {
    match group
    case None => Some(0)
    case Some(digits) => ParseInt32(digits)
  }

  /**
   * `parseTestResults`: `None` (Java's null) when there is no match or a
   * group does not parse as an `int`; otherwise the counts, with `passed`
   * computed in 32-bit arithmetic.
   */
  function ParseTestResults(output: string, find: SummaryFinder): Option<TestResults> {
    match find(output)
    case None => None
    case Some(m) =>
      match ParseInt32(m.total)
      case None => None
      case Some(total) =>
        match OptionalCount(m.failed)
        case None => None
        case Some(failed) =>
          match OptionalCount(m.skipped)
          case None => None
          case Some(skipped) => Some(TestResults(total, Int32Sub(Int32Sub(total, failed), skipped), failed, skipped))
  }

  /**
   * Results exist exactly when the pattern matched and every group that
   * took part parses; the counts are the parsed groups, an absent group
   * counts 0, and `passed` is what remains of the total once failures and
   * skips are taken away: passed, failed and skipped add up to the total
   * modulo 2^32, and exactly whenever that sum does not overflow.
   */
  lemma ParseTestResultsContract(output: string, find: SummaryFinder)
    ensures var r := ParseTestResults(output, find);
            && (r.Some? <==> find(output).Some? && ParseInt32(find(output).value.total).Some?
                             && OptionalCount(find(output).value.failed).Some?
                             && OptionalCount(find(output).value.skipped).Some?)
            && (r.Some? ==> && Some(r.value.total) == ParseInt32(find(output).value.total)
                            && Some(r.value.failed) == OptionalCount(find(output).value.failed)
                            && Some(r.value.skipped) == OptionalCount(find(output).value.skipped)
                            && (r.value.passed + r.value.failed + r.value.skipped - r.value.total) % 0x1_0000_0000 == 0
                            && (Int32Min <= r.value.total - r.value.failed - r.value.skipped <= Int32Max ==>
                                  r.value.passed + r.value.failed + r.value.skipped == r.value.total))
  {
    var r := ParseTestResults(output, find);
    if r.Some? {
      var t, f, s := r.value.total, r.value.failed, r.value.skipped;
      var d := Int32Sub(t, f);
      assert (d - (t - f)) % 0x1_0000_0000 == 0;
      assert (r.value.passed - (d - s)) % 0x1_0000_0000 == 0;
      ModuloSum(d - (t - f), r.value.passed - (d - s));
      if Int32Min <= t - f - s <= Int32Max {
        ModuloInRange(r.value.passed, t - f - s);
      }
    }
  }

  /** Two multiples of 2^32 add up to a multiple of 2^32. */
  lemma ModuloSum(x: int, y: int)
    requires x % 0x1_0000_0000 == 0 && y % 0x1_0000_0000 == 0
    ensures (x + y) % 0x1_0000_0000 == 0
  {
    var p, q := x / 0x1_0000_0000, y / 0x1_0000_0000;
    assert x == 0x1_0000_0000 * p && y == 0x1_0000_0000 * q;
    assert x + y == 0x1_0000_0000 * (p + q);
  }

  /** Two `int` values that agree modulo 2^32 are equal. */
  lemma ModuloInRange(x: int, y: int)
    requires Int32Min <= x <= Int32Max && Int32Min <= y <= Int32Max
    requires (x - y) % 0x1_0000_0000 == 0
    ensures x == y
  {
    var q := (x - y) / 0x1_0000_0000;
    assert x - y == 0x1_0000_0000 * q;
  }

  /**
   * Counts that Gradle prints, read back: a summary of `total` tests with
   * `failed` failures and `skipped` skips, each within `int` range, yields
   * exactly those counts and `total - failed - skipped` passed tests.
   */
  lemma ParseTestResultsReadsCounts(output: string, find: SummaryFinder, total: nat, failed: nat, skipped: nat)
    requires total <= Int32Max && failed + skipped <= total
    requires find(output) == Some(SummaryMatch(NatToString(total), Some(NatToString(failed)), Some(NatToString(skipped))))
    ensures ParseTestResults(output, find) == Some(TestResults(total, total - failed - skipped, failed, skipped))
  {
    ParseIntToString(total);
    ParseIntToString(failed);
    ParseIntToString(skipped);
  }

  /** The counters block of the response. */
  function SummaryBlock(results: TestResults): string {
    "Test Summary:\n"
    + "- Total: " + IntToString(results.total) + "\n"
    + "- Passed: " + IntToString(results.passed) + "\n"
    + "- Failed: " + IntToString(results.failed) + "\n"
    + "- Skipped: " + IntToString(results.skipped) + "\n"
    + "\n"
  }

  /** The first line of the response. */
  function TestVerdict(success: bool): string {
    if success then "TEST EXECUTION SUCCESSFUL\n" else "TEST EXECUTION FAILED\n"
  }

  /** The counters block, when there are results. */
  function Counters(results: Option<TestResults>): string {
    if results.Some? then SummaryBlock(results.value) else ""
  }

  /** The text `handle` answers with after a build that ran. */
  function TestResponse(build: BuildResult, results: Option<TestResults>): string {
    TestVerdict(build.success) + "\n" + Counters(results) + StreamSections(build)
  }

  /** The response-building part of `handle`. */
  method DescribeTests(build: BuildResult, results: Option<TestResults>) returns (response: string)
    ensures response == TestResponse(build, results)
  {
    response := TestVerdict(build.success);
    response := response + "\n";
    ghost var opening := response;
    if results.Some? {
      response := response + SummaryBlock(results.value);
    }
    ghost var counted := response;
    assert counted == opening + Counters(results);
    if build.output != "" {
      response := response + "Output:\n" + build.output;
    }
    ghost var written := response;
    if build.errors != "" {
      response := response + "\nErrors:\n" + build.errors;
    }
    StreamsAppended(counted, written, response, build);
  }

  /**
   * The response opens with "TEST EXECUTION SUCCESSFUL" exactly when the
   * build succeeded, and with "TEST EXECUTION FAILED" exactly when it did
   * not.
   */
  lemma TestResponseVerdict(build: BuildResult, results: Option<TestResults>)
    ensures StartsWith(TestResponse(build, results), "TEST EXECUTION SUCCESSFUL\n") <==> build.success
    ensures StartsWith(TestResponse(build, results), "TEST EXECUTION FAILED\n") <==> !build.success
  {
    var verdict := TestVerdict(build.success);
    var rest := "\n" + (if results.Some? then SummaryBlock(results.value) else "") + StreamSections(build);
    Regroup(verdict, "\n", if results.Some? then SummaryBlock(results.value) else "", StreamSections(build));
    if build.success {
      PrefixOfConcat(verdict, rest, "TEST EXECUTION SUCCESSFUL\n");
      DiffersAt(verdict, rest, "TEST EXECUTION FAILED\n", 15);
    } else {
      PrefixOfConcat(verdict, rest, "TEST EXECUTION FAILED\n");
      DiffersAt(verdict, rest, "TEST EXECUTION SUCCESSFUL\n", 15);
    }
  }

  /** The counters follow the verdict's blank line exactly when results were found. */
  lemma TestResponseCounters(build: BuildResult, results: Option<TestResults>)
    ensures StartsWith(TestResponse(build, results), TestVerdict(build.success) + "\nTest Summary:\n") <==> results.Some?
  {
    StreamsOpening(build);
    if results.Some? {
      CountersTitle(results.value);
    }
    CountersOpening(TestVerdict(build.success), Counters(results), StreamSections(build));
  }

  /** The counters block opens with its title. */
  lemma CountersTitle(results: TestResults)
    ensures StartsWith(SummaryBlock(results), "Test Summary:\n")
  {
    var title := "Test Summary:\n";
    var rest := "- Total: " + IntToString(results.total) + "\n"
                + "- Passed: " + IntToString(results.passed) + "\n"
                + "- Failed: " + IntToString(results.failed) + "\n"
                + "- Skipped: " + IntToString(results.skipped) + "\n"
                + "\n";
    assert SummaryBlock(results) == title + rest;
    ConcatEnds(title, rest);
  }

  /**
   * After the verdict's blank line, the counters block is recognised by its
   * title, and the streams sections, which open with "Output" or a blank
   * line, are not mistaken for it.
   */
  lemma CountersOpening(verdict: string, counters: string, streams: string)
    requires counters == "" || StartsWith(counters, "Test Summary:\n")
    requires streams != [] ==> streams[0] == 'O' || streams[0] == '\n'
    ensures StartsWith(verdict + "\n" + counters + streams, verdict + "\nTest Summary:\n") <==> counters != ""
  {
    var response, p := verdict + "\n" + counters + streams, verdict + "\nTest Summary:\n";
    if counters != "" {
      assert response[..|verdict| + 15] == verdict + "\n" + counters[..14];
    } else if |p| <= |response| {
      assert response[|verdict| + 1] == streams[0];
      assert p[|verdict| + 1] == 'T';
    }
  }

  /**
   * `handle`: the build runs through `executeBuild` with the assembled
   * lists; the response is an error exactly when the build failed, and an
   * exception from validation or the connector answers with
   * "Test execution failed: " and its message.
   */
  method Handle(manager: ConnectionManager, projectPath: Option<string>, testFilter: Option<string>,
                includeIntegrationTests: Option<bool>, parallel: Option<bool>, additionalArgs: Option<seq<string>>,
                now: nat, fs: FileSystem, reachable: bool, run: LaunchConfig -> BuildOutcome, find: SummaryFinder,
                connectMessage: string) returns (result: ToolResult)
    requires manager.Valid()
    modifies manager, manager.connections.Values
    ensures manager.Valid()
    ensures var integration := includeIntegrationTests.GetOr(DefaultIncludeIntegrationTests);
            var inParallel := parallel.GetOr(DefaultParallel);
            var tasks := if integration then [TestTask, IntegrationTestTask] else [TestTask];
            var (c, r) := Execute(old(manager.Abstract()), manager.workingDir, projectPath, Some(tasks),
                                  Some(TestArguments(additionalArgs, testFilter, inParallel)), now, fs, reachable, run);
            && manager.Abstract() == c
            && (result.isError <==> !(r.Success? && r.value.success))
            && (r.Failure? ==> result.text == "Test execution failed: " + ErrorMessage(r.error, connectMessage))
            && (r.Success? ==> result.text == TestResponse(r.value, ParseTestResults(r.value.output, find)))
  {
    var integration := includeIntegrationTests.GetOr(DefaultIncludeIntegrationTests);
    var inParallel := parallel.GetOr(DefaultParallel);
    var tasks, gradleArgs := BuildTestLaunch(integration, additionalArgs, testFilter, inParallel);
    var executed := ExecuteBuild(manager, projectPath, Some(tasks), Some(gradleArgs), now, fs, reachable, run);
    match executed
    case Failure(e) =>
      result := ToolResult(true, "Test execution failed: " + ErrorMessage(e, connectMessage));
    case Success(build) =>
      var results := ParseTestResults(build.output, find);
      var response := DescribeTests(build, results);
      result := ToolResult(!build.success, response);
  }
}
