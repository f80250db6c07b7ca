/**
 * The `gradle_clean` tool: the task and argument lists it hands to the
 * launcher, the sizes of the `build` and `.gradle` directories it measures
 * before and after the build, how it prints byte counts, and the text it
 * answers with.
 *
 * The filesystem at one moment is a `Tree`: what `java.io.File` finds at
 * each path. The build changes it, so the handler is given the tree before
 * the build and the tree after it.
 */
module Clean {
  import opened Wrappers
  import opened JavaStrings
  import opened Files
  import opened Connections
  import opened BaseHandler

  /**
   * What is found at a path: nothing, a file of `length` bytes, or a
   * directory whose listing is `children`.
   */
  datatype Node = Missing | FileNode(length: nat) | DirectoryNode(children: seq<Node>)

  /** A filesystem: what is found at each path; a path that is not a key does not exist. */
  type Tree = map<string, Node>

  /** What `new File(path)` finds in `tree`. */
  function At(tree: Tree, path: string): Node {
    if path in tree then tree[path] else Missing
  }

  const CleanTask := "clean"
  const CleanBuildCacheTask := "cleanBuildCache"
  const NoBuildCache := "--no-build-cache"
  /** What an omitted `cleanBuildCache` or `cleanDependencies` argument means. */
  const DefaultCleanBuildCache := false
  const DefaultCleanDependencies := false

  /** The tasks `handle` runs: `clean`, then `cleanBuildCache` when asked to. */
  function CleanTasks(cleanBuildCache: bool): seq<string> {
    if cleanBuildCache then [CleanTask, CleanBuildCacheTask] else [CleanTask]
  }

  /** The arguments `handle` passes: `--no-build-cache` when asked to clean the build cache. */
  function CleanArguments(cleanBuildCache: bool): seq<string> {
    if cleanBuildCache then [NoBuildCache] else []
  }

  /** The task list and the argument list `handle` builds in place. */
  method BuildCleanLaunch(cleanBuildCache: bool) returns (tasks: seq<string>, gradleArgs: seq<string>)
    ensures |tasks| >= 1 && tasks[0] == CleanTask
    ensures CleanBuildCacheTask in tasks <==> cleanBuildCache
    ensures NoBuildCache in gradleArgs <==> cleanBuildCache
    ensures |tasks| == 1 + |gradleArgs| && |gradleArgs| <= 1
    ensures tasks == CleanTasks(cleanBuildCache) && gradleArgs == CleanArguments(cleanBuildCache)
  {
    tasks := [CleanTask];
    gradleArgs := [];
    if cleanBuildCache {
      gradleArgs := gradleArgs + [NoBuildCache];
      tasks := tasks + [CleanBuildCacheTask];
    }
  }

  /** `File.length()`: the length of a file, 0 for anything else. */
  function Length(node: Node): nat {
    if node.FileNode? then node.length else 0
  }

  /** The bytes of the entries of a listing: a directory counts what is in it, recursively. */
  function ListedSize(children: seq<Node>): nat
    decreases children
  {
    if children == [] then 0
    else
      var last := children[|children| - 1];
      ListedSize(children[..|children| - 1]) +
      match last
      case DirectoryNode(inner) => ListedSize(inner)
      case _ => Length(last)
  }

  /** What `calculateDirectorySize` computes: 0 for anything that is not an existing directory. */
  function DirectorySize(node: Node): nat {
    if node.DirectoryNode? then ListedSize(node.children) else 0
  }

  /** `calculateDirectorySize`: the loop over the listing, recursing into directories. */
  method CalculateDirectorySize(directory: Node) returns (size: nat)
    ensures size == DirectorySize(directory)
    decreases directory
  {
    if !directory.DirectoryNode? {
      return 0;
    }
    size := 0;
    var files := directory.children;
    for i := 0 to |files|
      invariant size == ListedSize(files[..i])
    {
      var file := files[i];
      assert files[..i + 1][..i] == files[..i];
      if file.DirectoryNode? {
        var inner := CalculateDirectorySize(file);
        size := size + inner;
      } else {
        size := size + Length(file);
      }
    }
    assert files[..|files|] == files;
  }

  /** The lengths of all the files in a listing, at any depth, in listing order. */
  function FileLengths(children: seq<Node>): seq<nat>
    decreases children
  {
    if children == [] then []
    else
      var last := children[|children| - 1];
      FileLengths(children[..|children| - 1]) +
      match last
      case DirectoryNode(inner) => FileLengths(inner)
      case FileNode(length) => [length]
      case Missing => []
  }

  function Sum(s: seq<nat>): nat {
    if s == [] then 0 else Sum(s[..|s| - 1]) + s[|s| - 1]
  }

  lemma {:induction false} SumConcat(a: seq<nat>, b: seq<nat>)
    ensures Sum(a + b) == Sum(a) + Sum(b)
    decreases |b|
  {
    if b != [] {
      SumConcat(a, b[..|b| - 1]);
      assert (a + b)[..|a + b| - 1] == a + b[..|b| - 1];
      assert (a + b)[|a + b| - 1] == b[|b| - 1];
      assert Sum(a + b) == Sum(a + b[..|b| - 1]) + b[|b| - 1];
      assert Sum(b) == Sum(b[..|b| - 1]) + b[|b| - 1];
    } else {
      assert a + b == a;
    }
  }

  /**
   * A directory's size is the total length of the files in it, at any
   * depth; a missing path, or a path that is not a directory, has size 0.
   */
  lemma DirectorySizeIsFileTotal(node: Node)
    ensures DirectorySize(node) == if node.DirectoryNode? then Sum(FileLengths(node.children)) else 0
  {
    if node.DirectoryNode? {
      ListedSizeIsFileTotal(node.children);
    }
  }

  lemma {:induction false} ListedSizeIsFileTotal(children: seq<Node>)
    ensures ListedSize(children) == Sum(FileLengths(children))
    decreases children
  {
    if children != [] {
      var init, last := children[..|children| - 1], children[|children| - 1];
      ListedSizeIsFileTotal(init);
      match last
      case DirectoryNode(inner) =>
        ListedSizeIsFileTotal(inner);
        SumConcat(FileLengths(init), FileLengths(inner));
      case FileNode(length) =>
        SumConcat(FileLengths(init), [length]);
      case Missing =>
        assert FileLengths(init) + [] == FileLengths(init);
    }
  }

  /**
   * `new File(parent, child).getPath()`: a null parent leaves `child` alone,
   * an empty one means the root, and any other is normalised first.
   */
  function FileIn(parent: Option<string>, child: string): string {
    match parent
    case None => child
    case Some(p) => if p == "" then "/" + child else Child(Normalize(p), child)
  }

  function BuildDir(projectPath: Option<string>): string {
    FileIn(projectPath, "build")
  }

  function GradleDir(projectPath: Option<string>): string {
    FileIn(projectPath, ".gradle")
  }

  /** The bytes freed under `dir` between the filesystem `before` and the filesystem `after`. */
  function Reclaimed(before: Tree, after: Tree, dir: string): int {
    DirectorySize(At(before, dir)) - DirectorySize(At(after, dir))
  }

  // ---------------------------------------------------------------------
  // Byte counts
  // ---------------------------------------------------------------------

  /** 1024 to the power `k`. */
  function Pow1024(k: nat): nat {
    if k == 0 then 1 else 1024 * Pow1024(k - 1)
  }

  const UnitNames := ["B", "KB", "MB", "GB"]

  /**
   * `formatBytes`. `twoDecimals(bytes, divisor)` stands for the `%.2f`
   * rendering of `bytes / divisor`, since floating-point formatting is not
   * modelled.
   */
  function FormatBytes(bytes: int, twoDecimals: (int, nat) -> string): string {
    if bytes < 1024 then IntToString(bytes) + " B"
    else if bytes < 1024 * 1024 then twoDecimals(bytes, 1024) + " KB"
    else if bytes < 1024 * 1024 * 1024 then twoDecimals(bytes, 1024 * 1024) + " MB"
    else twoDecimals(bytes, 1024 * 1024 * 1024) + " GB"
  }

  /**
   * A count below 1024, negative ones included, is printed exactly in
   * bytes; a larger one is scaled to the largest unit, 1024 to the power
   * `k` for `k` up to 3, that does not exceed it.
   */
  lemma FormatBytesUnit(bytes: int, twoDecimals: (int, nat) -> string)
    ensures bytes < 1024 ==> FormatBytes(bytes, twoDecimals) == IntToString(bytes) + " " + UnitNames[0]
    ensures forall k: nat | 1 <= k <= 3 && Pow1024(k) <= bytes && (k == 3 || bytes < Pow1024(k + 1)) ::
              FormatBytes(bytes, twoDecimals) == twoDecimals(bytes, Pow1024(k)) + " " + UnitNames[k]
  {
    assert Pow1024(1) == 1024;
    assert Pow1024(2) == 1024 * 1024;
    assert Pow1024(3) == 1024 * 1024 * 1024;
    assert Pow1024(4) == 1024 * 1024 * 1024 * 1024;
  }

  /** Byte counts below 1024 that fit an `int` read back as the count that was printed. */
  lemma SmallCountsReadBack(bytes: int, twoDecimals: (int, nat) -> string)
    requires Int32Min <= bytes < 1024
    ensures var text := FormatBytes(bytes, twoDecimals);
            EndsWith(text, " B") && ParseInt32(text[..|text| - 2]) == Some(bytes)
  {
    var text := FormatBytes(bytes, twoDecimals);
    ConcatEnds(IntToString(bytes), " B");
    assert text[..|text| - 2] == IntToString(bytes);
    ParseIntToString(bytes);
  }

  // ---------------------------------------------------------------------
  // The response
  // ---------------------------------------------------------------------

  function CleanVerdict(success: bool): string {
    if success then "CLEAN SUCCESSFUL\n" else "CLEAN FAILED\n"
  }

  /** The cleaned-bytes breakdown: the total, then each directory's share. */
  function CleanedBlock(buildCleaned: int, gradleCleaned: int, twoDecimals: (int, nat) -> string): string {
    "Cleaned: " + FormatBytes(buildCleaned + gradleCleaned, twoDecimals) + "\n"
    + "- Build directory: " + FormatBytes(buildCleaned, twoDecimals) + "\n"
    + "- Gradle cache: " + FormatBytes(gradleCleaned, twoDecimals) + "\n"
    + "\n"
  }

  /** The breakdown is shown only after a successful build that freed space. */
  function Breakdown(success: bool, buildCleaned: int, gradleCleaned: int, twoDecimals: (int, nat) -> string): string {
    if success && buildCleaned + gradleCleaned > 0 then CleanedBlock(buildCleaned, gradleCleaned, twoDecimals) else ""
  }

  /** What the dependency-cache cleanup adds, given whether it succeeded. */
  function CleanupReport(cleaned: bool): string {
    "\n\nCleaning dependencies...\n"
    + if cleaned then "Dependencies cache cleaned successfully.\n" else "Failed to clean dependencies cache.\n"
  }

  /**
   * The text `handle` answers with after a build that ran; `buildCleaned`
   * and `gradleCleaned` are the bytes the two directories lost, and
   * `dependenciesCleaned` what the dependency-cache cleanup returned.
   */
  function CleanResponse(build: BuildResult, buildCleaned: int, gradleCleaned: int, cleanDependencies: bool,
                         dependenciesCleaned: bool, twoDecimals: (int, nat) -> string): string {
    CleanVerdict(build.success) + "\n"
    + Breakdown(build.success, buildCleaned, gradleCleaned, twoDecimals)
    + StreamSections(build)
    + (if cleanDependencies && build.success then CleanupReport(dependenciesCleaned) else "")
  }

  /** The response-building part of `handle`. */
  method DescribeClean(build: BuildResult, buildCleaned: int, gradleCleaned: int, cleanDependencies: bool,
                       dependenciesCleaned: bool, twoDecimals: (int, nat) -> string) returns (response: string)
    ensures response == CleanResponse(build, buildCleaned, gradleCleaned, cleanDependencies, dependenciesCleaned, twoDecimals)
  {
    var totalCleaned := buildCleaned + gradleCleaned;
    response := CleanVerdict(build.success);
    response := response + "\n";
    ghost var opening := response;
    if build.success && totalCleaned > 0 {
      response := response + CleanedBlock(buildCleaned, gradleCleaned, twoDecimals);
    }
    ghost var counted := response;
    assert counted == opening + Breakdown(build.success, buildCleaned, gradleCleaned, twoDecimals);
    if build.output != "" {
      response := response + "Output:\n" + build.output;
    }
    ghost var written := response;
    if build.errors != "" {
      response := response + "\nErrors:\n" + build.errors;
    }
    StreamsAppended(counted, written, response, build);
    ghost var streamed := response;
    if cleanDependencies && build.success {
      response := response + CleanupReport(dependenciesCleaned);
    }
    assert response == streamed + (if cleanDependencies && build.success then CleanupReport(dependenciesCleaned) else "");
  }

  /**
   * The response opens with "CLEAN SUCCESSFUL" exactly when the build
   * succeeded, and with "CLEAN FAILED" exactly when it did not.
   */
  lemma CleanResponseVerdict(build: BuildResult, buildCleaned: int, gradleCleaned: int, cleanDependencies: bool,
                             dependenciesCleaned: bool, twoDecimals: (int, nat) -> string)
    ensures var response := CleanResponse(build, buildCleaned, gradleCleaned, cleanDependencies, dependenciesCleaned, twoDecimals);
            && (StartsWith(response, "CLEAN SUCCESSFUL\n") <==> build.success)
            && (StartsWith(response, "CLEAN FAILED\n") <==> !build.success)
  {
    var verdict := CleanVerdict(build.success);
    var rest := "\n" + Breakdown(build.success, buildCleaned, gradleCleaned, twoDecimals) + StreamSections(build)
                + (if cleanDependencies && build.success then CleanupReport(dependenciesCleaned) else "");
    Regroup4(verdict, "\n", Breakdown(build.success, buildCleaned, gradleCleaned, twoDecimals), StreamSections(build),
             if cleanDependencies && build.success then CleanupReport(dependenciesCleaned) else "");
    if build.success {
      PrefixOfConcat(verdict, rest, "CLEAN SUCCESSFUL\n");
      DiffersAt(verdict, rest, "CLEAN FAILED\n", 6);
    } else {
      PrefixOfConcat(verdict, rest, "CLEAN FAILED\n");
      DiffersAt(verdict, rest, "CLEAN SUCCESSFUL\n", 6);
    }
  }

  /**
   * The breakdown follows the verdict's blank line exactly when the build
   * succeeded and the two directories lost bytes in total.
   */
  lemma BreakdownShown(build: BuildResult, buildCleaned: int, gradleCleaned: int, cleanDependencies: bool,
                       dependenciesCleaned: bool, twoDecimals: (int, nat) -> string)
    ensures StartsWith(CleanResponse(build, buildCleaned, gradleCleaned, cleanDependencies, dependenciesCleaned, twoDecimals),
                       CleanVerdict(build.success) + "\nCleaned: ")
            <==> build.success && buildCleaned + gradleCleaned > 0
  {
    var breakdown := Breakdown(build.success, buildCleaned, gradleCleaned, twoDecimals);
    var cleanup := if cleanDependencies && build.success then CleanupReport(dependenciesCleaned) else "";
    StreamsOpening(build);
    if breakdown != "" {
      BlockTitle(buildCleaned, gradleCleaned, twoDecimals);
    }
    TailOpening(StreamSections(build), cleanup);
    BreakdownOpening(CleanVerdict(build.success), breakdown, StreamSections(build) + cleanup);
    Regroup(CleanVerdict(build.success) + "\n", breakdown, StreamSections(build), cleanup);
    assert CleanResponse(build, buildCleaned, gradleCleaned, cleanDependencies, dependenciesCleaned, twoDecimals) ==
           CleanVerdict(build.success) + "\n" + breakdown + (StreamSections(build) + cleanup);
  }

  /** The breakdown opens with its title. */
  lemma BlockTitle(buildCleaned: int, gradleCleaned: int, twoDecimals: (int, nat) -> string)
    ensures StartsWith(CleanedBlock(buildCleaned, gradleCleaned, twoDecimals), "Cleaned: ")
  {
    PrefixKept("Cleaned: ", FormatBytes(buildCleaned + gradleCleaned, twoDecimals), "\n",
               "- Build directory: ", FormatBytes(buildCleaned, twoDecimals), "\n",
               "- Gradle cache: ", FormatBytes(gradleCleaned, twoDecimals), "\n", "\n");
  }

  /** Nine pieces appended one by one to `p` keep it as a prefix. */
  lemma PrefixKept(p: string, a: string, b: string, c: string, d: string, e: string, f: string, g: string, h: string,
                   i: string)
    ensures StartsWith(p + a + b + c + d + e + f + g + h + i, p)
  {
    var s := p + a + b + c + d + e + f + g + h + i;
    assert s == p + (a + b + c + d + e + f + g + h + i);
    ConcatEnds(p, a + b + c + d + e + f + g + h + i);
  }

  /** What follows the breakdown opens with "Output" or a blank line, when there is anything. */
  lemma TailOpening(streams: string, cleanup: string)
    requires streams != [] ==> streams[0] == 'O' || streams[0] == '\n'
    requires cleanup == "" || cleanup == CleanupReport(true) || cleanup == CleanupReport(false)
    ensures var tail := streams + cleanup;
            tail != [] ==> tail[0] == 'O' || tail[0] == '\n'
  {
    if streams == [] && cleanup != [] {
      assert (streams + cleanup)[0] == cleanup[0] == '\n';
    }
  }

  /**
   * After the verdict's blank line, the breakdown is recognised by its
   * title, and a tail opening with "Output" or a blank line is not
   * mistaken for it.
   */
  lemma BreakdownOpening(verdict: string, breakdown: string, tail: string)
    requires breakdown == "" || StartsWith(breakdown, "Cleaned: ")
    requires tail != [] ==> tail[0] == 'O' || tail[0] == '\n'
    ensures StartsWith(verdict + "\n" + breakdown + tail, verdict + "\nCleaned: ") <==> breakdown != ""
  {
    var response, p := verdict + "\n" + breakdown + tail, verdict + "\nCleaned: ";
    if breakdown != "" {
      assert response[..|verdict| + 10] == verdict + "\n" + breakdown[..9];
    } else if |p| <= |response| {
      assert response[|verdict| + 1] == tail[0];
      assert p[|verdict| + 1] == 'C';
    }
  }

  /**
   * A successful build asked to clean dependencies ends with the cleanup's
   * report, which says whether the cleanup succeeded.
   */
  lemma CleanupReported(build: BuildResult, buildCleaned: int, gradleCleaned: int, dependenciesCleaned: bool,
                        twoDecimals: (int, nat) -> string)
    requires build.success
    ensures EndsWith(CleanResponse(build, buildCleaned, gradleCleaned, true, dependenciesCleaned, twoDecimals),
                     CleanupReport(dependenciesCleaned))
  {
    var head := CleanVerdict(build.success) + "\n" + Breakdown(build.success, buildCleaned, gradleCleaned, twoDecimals)
                + StreamSections(build);
    ConcatEnds(head, CleanupReport(dependenciesCleaned));
  }

  // ---------------------------------------------------------------------
  // The handler
  // ---------------------------------------------------------------------

  /**
   * The part of `handle` after `executeBuild` returned or threw: the sizes
   * after the build, and the answer.
   */
  method Respond(executed: Result<BuildResult, Error>, before: Tree, after: Tree, buildDir: string, gradleDir: string,
                 buildDirSizeBefore: nat, gradleDirSizeBefore: nat, cleanDependencies: bool, dependenciesCleaned: bool,
                 twoDecimals: (int, nat) -> string, connectMessage: string) returns (result: ToolResult, cleanupAttempted: bool)
    requires buildDirSizeBefore == DirectorySize(At(before, buildDir))
    requires gradleDirSizeBefore == DirectorySize(At(before, gradleDir))
    ensures cleanupAttempted <==> cleanDependencies && executed.Success? && executed.value.success
    ensures executed.Failure? ==> result == ToolResult(true, "Clean failed: " + ErrorMessage(executed.error, connectMessage))
    ensures executed.Success? ==>
              result == ToolResult(!executed.value.success,
                                   CleanResponse(executed.value, Reclaimed(before, after, buildDir),
                                                 Reclaimed(before, after, gradleDir),
                                                 cleanDependencies, dependenciesCleaned, twoDecimals))
  {
    cleanupAttempted := false;
    match executed
    case Failure(e) =>
      result := ToolResult(true, "Clean failed: " + ErrorMessage(e, connectMessage));
    case Success(build) =>
      var buildDirSizeAfter := CalculateDirectorySize(At(after, buildDir));
      var gradleDirSizeAfter := CalculateDirectorySize(At(after, gradleDir));
      var buildCleaned := buildDirSizeBefore - buildDirSizeAfter;
      var gradleCleaned := gradleDirSizeBefore - gradleDirSizeAfter;
      assert buildCleaned == Reclaimed(before, after, buildDir);
      assert gradleCleaned == Reclaimed(before, after, gradleDir);
      var response := DescribeClean(build, buildCleaned, gradleCleaned, cleanDependencies, dependenciesCleaned, twoDecimals);
      cleanupAttempted := cleanDependencies && build.success;
      result := ToolResult(!build.success, response);
  }

  /**
   * `handle`. The sizes are measured in `before`, the filesystem before the
   * build, and in `after`, the filesystem after it; `dependenciesCleaned`
   * is what `cleanDependenciesCache` returns, and `cleanupAttempted` says
   * whether it was called. An exception from validation or the connector
   * answers with "Clean failed: " and its message.
   */
  method Handle(manager: ConnectionManager, projectPath: Option<string>, cleanBuildCache: Option<bool>, cleanDependencies: Option<bool>,
                now: nat, fs: FileSystem, reachable: bool, run: LaunchConfig -> BuildOutcome,
                before: Tree, after: Tree, dependenciesCleaned: bool, twoDecimals: (int, nat) -> string,
                connectMessage: string) returns (result: ToolResult, cleanupAttempted: bool)
    requires manager.Valid()
    modifies manager, manager.connections.Values
    ensures manager.Valid()
    ensures var buildCache := cleanBuildCache.GetOr(DefaultCleanBuildCache);
            var dependencies := cleanDependencies.GetOr(DefaultCleanDependencies);
            var (c, r) := Execute(old(manager.Abstract()), manager.workingDir, projectPath, Some(CleanTasks(buildCache)),
                                  Some(CleanArguments(buildCache)),
                                  now, fs, reachable, run);
            var buildCleaned := Reclaimed(before, after, BuildDir(projectPath));
            var gradleCleaned := Reclaimed(before, after, GradleDir(projectPath));
            && manager.Abstract() == c
            && (cleanupAttempted <==> dependencies && r.Success? && r.value.success)
            && (r.Failure? ==> result == ToolResult(true, "Clean failed: " + ErrorMessage(r.error, connectMessage)))
            && (r.Success? ==> result == ToolResult(!r.value.success, CleanResponse(r.value, buildCleaned, gradleCleaned,
                                                                                    dependencies, dependenciesCleaned,
                                                                                    twoDecimals)))
  {
    ghost var cache := manager.Abstract();
    var buildCache := cleanBuildCache.GetOr(DefaultCleanBuildCache);
    var dependencies := cleanDependencies.GetOr(DefaultCleanDependencies);
    var tasks, gradleArgs := BuildCleanLaunch(buildCache);
    var buildDir := BuildDir(projectPath);
    var buildDirSizeBefore := CalculateDirectorySize(At(before, buildDir));
    var gradleDir := GradleDir(projectPath);
    var gradleDirSizeBefore := CalculateDirectorySize(At(before, gradleDir));
    var executed := ExecuteBuild(manager, projectPath, Some(tasks), Some(gradleArgs), now, fs, reachable, run);
    ghost var outcome := Execute(cache, manager.workingDir, projectPath, Some(tasks), Some(gradleArgs), now, fs, reachable, run);
    assert manager.Abstract() == outcome.0 && executed == outcome.1;
    result, cleanupAttempted := Respond(executed, before, after, buildDir, gradleDir, buildDirSizeBefore, gradleDirSizeBefore,
                                        dependencies, dependenciesCleaned, twoDecimals, connectMessage);
  }
}
