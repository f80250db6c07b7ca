/**
 * The `gradle_dependencies` tool: the arguments of the `dependencies` task,
 * the scan of its report for one configuration, the dependency level read
 * off the tree prefix, and the response text.
 *
 * DEPENDENCY_PATTERN is not interpreted: `find` is the regular expression's
 * first match in a line, as its five capture groups.
 */
module Dependencies {
  import opened Wrappers
  import opened JavaStrings
  import opened Files
  import opened Connections
  import opened BaseHandler

  /** The capture groups of DEPENDENCY_PATTERN's first match in a line; the fifth is optional. */
  datatype DependencyMatch = DependencyMatch(prefix: string, group: string, name: string, version: string, resolved: Option<string>)

  type Matcher = string -> Option<DependencyMatch>

  datatype Dependency = Dependency(group: string, name: string, requestedVersion: string, resolvedVersion: string, level: int)

  /** `DependencyReport`: the parsed dependencies and the three counters. */
  datatype DependencyReport = DependencyReport(dependencies: seq<Dependency>, totalCount: int, directCount: int, transitiveCount: int)

  const DefaultConfiguration := "compileClasspath"
  /** What an omitted `showTransitive` or `refresh` argument means. */
  const DefaultShowTransitive := true
  const DefaultRefresh := false
  const NoTransitive := "--no-transitive"
  const RefreshDependencies := "--refresh-dependencies"

  /** The task list and the argument list `handle` builds. */
  method BuildArguments(configuration: string, showTransitive: bool, refresh: bool)
    returns (tasks: seq<string>, gradleArgs: seq<string>)
    ensures tasks == ["dependencies"]
    ensures |gradleArgs| >= 1 && gradleArgs[0] == configuration
    ensures NoTransitive in gradleArgs[1..] <==> !showTransitive
    ensures RefreshDependencies in gradleArgs[1..] <==> refresh
    ensures |gradleArgs| == 1 + (if showTransitive then 0 else 1) + (if refresh then 1 else 0)
    ensures !showTransitive ==> gradleArgs[1] == NoTransitive
  {
    tasks := ["dependencies"];
    gradleArgs := [configuration];
    if !showTransitive {
      gradleArgs := gradleArgs + [NoTransitive];
    }
    if refresh {
      gradleArgs := gradleArgs + [RefreshDependencies];
    }
    assert gradleArgs[1..] == (if showTransitive then [] else [NoTransitive]) + (if refresh then [RefreshDependencies] else []);
  }

  // ---------------------------------------------------------------------
  // The dependency level
  // ---------------------------------------------------------------------

  /** The characters `calculateDependencyLevel` counts. */
  predicate IsMarker(c: char) {
    c == '+' || c == '\\' || c == '|' || c == '-'
  }

  /** How many characters of `s` are markers. */
  function MarkerCount(s: string): (n: nat)
    ensures n <= |s|
  {
    if s == [] then 0 else MarkerCount(s[..|s| - 1]) + (if IsMarker(s[|s| - 1]) then 1 else 0)
  }

  lemma {:induction false} MarkerCountConcat(a: string, b: string)
    ensures MarkerCount(a + b) == MarkerCount(a) + MarkerCount(b)
    decreases |b|
  {
    if b == [] {
      assert a + b == a;
    } else {
      assert (a + b)[..|a + b| - 1] == a + b[..|b| - 1];
      assert (a + b)[|a + b| - 1] == b[|b| - 1];
      MarkerCountConcat(a, b[..|b| - 1]);
    }
  }

  /** `calculateDependencyLevel`: the markers of the prefix, counted one by one, divided by 4. */
  method CalculateDependencyLevel(prefix: string) returns (level: int)
    ensures level == MarkerCount(prefix) / 4
    ensures 0 <= level <= |prefix| / 4
  {
    var markers := 0;
    for i := 0 to |prefix|
      invariant markers == MarkerCount(prefix[..i])
    {
      assert prefix[..i + 1][..i] == prefix[..i];
      if IsMarker(prefix[i]) {
        markers := markers + 1;
      }
    }
    assert prefix[..|prefix|] == prefix;
    level := markers / 4;
  }

  /**
   * The indentation Gradle draws before a dependency nested under
   * `|rails|` ancestors: five columns per ancestor, "|    " while that
   * ancestor has later siblings and five spaces once it has none.
   */
  function Columns(rails: seq<bool>): (r: string)
    ensures |r| == 5 * |rails|
  {
    if rails == [] then "" else (if rails[0] then "|    " else "     ") + Columns(rails[1..])
  }

  /**
   * The prefix DEPENDENCY_PATTERN captures for a dependency at depth
   * `|rails|`: the columns, then "+" or "\" (the "--- " after it is not
   * part of the capture).
   */
  function TreePrefix(rails: seq<bool>, last: char): string
    requires last == '+' || last == '\\'
  {
    Columns(rails) + [last]
  }

  lemma {:induction false} MarkerFree(s: string)
    requires forall i :: 0 <= i < |s| ==> !IsMarker(s[i])
    ensures MarkerCount(s) == 0
  {
    if s != [] {
      MarkerFree(s[..|s| - 1]);
    }
  }

  lemma {:induction false} ColumnsMarkers(rails: seq<bool>)
    ensures MarkerCount(Columns(rails)) <= |rails|
  {
    if rails != [] {
      var column := if rails[0] then "|    " else "     ";
      MarkerCountConcat(column, Columns(rails[1..]));
      ColumnsMarkers(rails[1..]);
      assert MarkerCount(column) <= 1 by {
        MarkerCountConcat(column[..1], column[1..]);
        MarkerFree(column[1..]);
        assert column[..1] + column[1..] == column;
      }
    }
  }

  /**
   * As written, a dependency nested one or two levels deep gets level 0
   * and is counted as direct: its prefix holds at most three markers.
   */
  lemma ShallowTransitiveCountedDirect(rails: seq<bool>, last: char)
    requires last == '+' || last == '\\'
    requires |rails| <= 2
    ensures MarkerCount(TreePrefix(rails, last)) / 4 == 0
  {
    ColumnsMarkers(rails);
    MarkerCountConcat(Columns(rails), [last]);
    assert [last][..0] == [];
  }

  /** The dependency "|    \--- a:b:1", one level below a direct one, is read at level 0. */
  lemma ChildOfFirstDependencyIsLevelZero()
    ensures TreePrefix([true], '\\') == "|    \\"
    ensures MarkerCount(TreePrefix([true], '\\')) / 4 == 0
  {
    ShallowTransitiveCountedDirect([true], '\\');
  }

  /** The level a dependency's tree prefix evidently stands for: five columns per level. */
  function TreeLevel(prefix: string): nat {
    |prefix| / 5
  }

  /** `TreeLevel` gives every tree prefix its depth. */
  lemma TreeLevelIsDepth(rails: seq<bool>, last: char)
    requires last == '+' || last == '\\'
    ensures TreeLevel(TreePrefix(rails, last)) == |rails|
    ensures TreeLevel(TreePrefix(rails, last)) == 0 <==> rails == []
  {
  }

  // ---------------------------------------------------------------------
  // The scan of the report
  // ---------------------------------------------------------------------

  /** The `Dependency` built from a match: the resolved version defaults to the requested one. */
  function DependencyOf(m: DependencyMatch): (d: Dependency)
    ensures d.resolvedVersion == if m.resolved.Some? then m.resolved.value else m.version
    ensures d.requestedVersion == m.version && d.group == m.group && d.name == m.name
    ensures 0 <= d.level <= |m.prefix| / 4
  {
    Dependency(m.group, m.name, m.version, m.resolved.GetOr(m.version), MarkerCount(m.prefix) / 4)
  }

  /** The line that opens the report of `configuration` contains this. */
  function SectionHeader(configuration: string): string {
    configuration + " -"
  }

  /** A line that ends the section: blank after trimming, and not starting with a space. */
  predicate EndsSection(line: string) {
    Trim(line) == "" && !StartsWith(line, " ")
  }

  /** What one line does to the scan. */
  datatype LineEffect = Enter | Stop | Take(dep: Dependency) | Skip

  /**
   * The effect of `line` on a scan that is inside the section when
   * `inSection`: a line containing the header (re)enters the section and
   * is not parsed; inside it, a line that ends the section stops the scan,
   * and a line with a match yields a dependency.
   */
  function Classify(line: string, header: string, inSection: bool, find: Matcher): LineEffect {
    if Contains(line, header) then Enter
    else if inSection && EndsSection(line) then Stop
    else if inSection && find(line).Some? then Take(DependencyOf(find(line).value))
    else Skip
  }

  /** The dependencies `parseDependencies` collects from `lines`. */
  function Parsed(lines: seq<string>, header: string, inSection: bool, find: Matcher): seq<Dependency>
    decreases |lines|
  {
    if lines == [] then []
    else
      match Classify(lines[0], header, inSection, find)
      case Enter => Parsed(lines[1..], header, true, find)
      case Stop => []
      case Take(dep) => [dep] + Parsed(lines[1..], header, true, find)
      case Skip => Parsed(lines[1..], header, inSection, find)
  }

  /** Lines before the first one containing the header yield nothing. */
  lemma {:induction false} LinesBeforeHeaderIgnored(before: seq<string>, after: seq<string>, header: string, find: Matcher)
    requires forall i :: 0 <= i < |before| ==> !Contains(before[i], header)
    ensures Parsed(before + after, header, false, find) == Parsed(after, header, false, find)
    ensures Parsed(before, header, false, find) == []
  {
    if before != [] {
      assert (before + after)[0] == before[0];
      assert (before + after)[1..] == before[1..] + after;
      LinesBeforeHeaderIgnored(before[1..], after, header, find);
    } else {
      assert before + after == after;
    }
  }

  /**
   * The header line itself yields nothing, and inside the section a line
   * that ends it hides every line after it.
   */
  lemma SectionBoundaries(line: string, after: seq<string>, header: string, inSection: bool, find: Matcher)
    ensures Contains(line, header) ==> Parsed([line] + after, header, inSection, find) == Parsed(after, header, true, find)
    ensures !Contains(line, header) && EndsSection(line) ==> Parsed([line] + after, header, true, find) == []
    ensures !inSection && !Contains(line, header) ==> Parsed([line] + after, header, false, find) == Parsed(after, header, false, find)
  {
    assert ([line] + after)[1..] == after;
  }

  /** The level-0 dependencies, in order. */
  function Direct(deps: seq<Dependency>): (r: seq<Dependency>)
    ensures |r| <= |deps|
    ensures forall i :: 0 <= i < |r| ==> r[i].level == 0
  {
    if deps == [] then []
    else
      var last := deps[|deps| - 1];
      Direct(deps[..|deps| - 1]) + (if last.level == 0 then [last] else [])
  }

  /** The other dependencies, in order. */
  function Transitive(deps: seq<Dependency>): (r: seq<Dependency>)
    ensures |r| <= |deps|
    ensures forall i :: 0 <= i < |r| ==> r[i].level != 0
  {
    if deps == [] then []
    else
      var last := deps[|deps| - 1];
      Transitive(deps[..|deps| - 1]) + (if last.level != 0 then [last] else [])
  }

  /** No dependency is lost: each lands in the list its level selects. */
  lemma {:induction false} DirectTransitiveComplete(deps: seq<Dependency>)
    ensures forall i :: 0 <= i < |deps| && deps[i].level == 0 ==> deps[i] in Direct(deps)
    ensures forall i :: 0 <= i < |deps| && deps[i].level != 0 ==> deps[i] in Transitive(deps)
  {
    if deps != [] {
      var init := deps[..|deps| - 1];
      DirectTransitiveComplete(init);
      forall i | 0 <= i < |deps| - 1
        ensures deps[i] == init[i]
      {
      }
    }
  }

  /** Every dependency is direct or transitive, and none is both. */
  lemma {:induction false} DirectPlusTransitive(deps: seq<Dependency>)
    ensures |Direct(deps)| + |Transitive(deps)| == |deps|
  {
    if deps != [] {
      DirectPlusTransitive(deps[..|deps| - 1]);
    }
  }

  /** After `i` lines the scan holds `deps` and the flag `inSection`, and the rest of the lines yields the remainder. */
  predicate Scanned(lines: seq<string>, i: nat, deps: seq<Dependency>, header: string, inSection: bool, find: Matcher)
    requires i <= |lines|
  {
    deps + Parsed(lines[i..], header, inSection, find) == Parsed(lines, header, false, find)
  }

  /** One step of the scan: how the effect of the line at `i` carries `Scanned` over to the next line. */
  lemma ScanStep(lines: seq<string>, i: nat, deps: seq<Dependency>, header: string, inSection: bool, find: Matcher)
    requires i < |lines| && Scanned(lines, i, deps, header, inSection, find)
    ensures match Classify(lines[i], header, inSection, find)
            case Enter => Scanned(lines, i + 1, deps, header, true, find)
            case Stop => deps == Parsed(lines, header, false, find)
            case Take(dep) => Scanned(lines, i + 1, deps + [dep], header, true, find)
            case Skip => Scanned(lines, i + 1, deps, header, inSection, find)
  {
    assert lines[i..][1..] == lines[i + 1..];
    match Classify(lines[i], header, inSection, find)
    case Take(dep) =>
      assert (deps + [dep]) + Parsed(lines[i + 1..], header, true, find)
          == deps + ([dep] + Parsed(lines[i + 1..], header, true, find));
    case _ =>
  }

  lemma DirectAppend(deps: seq<Dependency>, dep: Dependency)
    ensures Direct(deps + [dep]) == Direct(deps) + (if dep.level == 0 then [dep] else [])
    ensures Transitive(deps + [dep]) == Transitive(deps) + (if dep.level != 0 then [dep] else [])
  {
    assert (deps + [dep])[..|deps|] == deps;
  }

  /** The tests `parseDependencies` makes of one line, in its order. */
  method ClassifyLine(line: string, header: string, inConfiguration: bool, find: Matcher) returns (effect: LineEffect)
    ensures effect == Classify(line, header, inConfiguration, find)
  {
    if Contains(line, header) {
      return Enter;
    }
    if inConfiguration && Trim(line) == "" && !StartsWith(line, " ") {
      return Stop;
    }
    effect := Skip;
    if inConfiguration {
      var m := find(line);
      if m.Some? {
        var level := CalculateDependencyLevel(m.value.prefix);
        effect := Take(Dependency(m.value.group, m.value.name, m.value.version,
                                  if m.value.resolved.Some? then m.value.resolved.value else m.value.version, level));
      }
    }
  }

  /** `parseDependencies`: splits the output into lines and scans them. */
  method ParseDependencies(output: string, configuration: string, find: Matcher) returns (report: DependencyReport)
    ensures report.dependencies == Parsed(Split(output, '\n'), SectionHeader(configuration), false, find)
    ensures report.totalCount == |report.dependencies| == report.directCount + report.transitiveCount
    ensures report.directCount == |Direct(report.dependencies)|
    ensures report.transitiveCount == |Transitive(report.dependencies)|
  {
    var lines := Split(output, '\n');
    report := ScanLines(lines, SectionHeader(configuration), find);
  }

  /**
   * The loop of `parseDependencies`: the lines scanned once with the
   * `inConfiguration` flag, each match appended and counted.
   */
  method ScanLines(lines: seq<string>, header: string, find: Matcher) returns (report: DependencyReport)
    ensures report.dependencies == Parsed(lines, header, false, find)
    ensures report.totalCount == |report.dependencies| == report.directCount + report.transitiveCount
    ensures report.directCount == |Direct(report.dependencies)|
    ensures report.transitiveCount == |Transitive(report.dependencies)|
  {
    var dependencies: seq<Dependency> := [];
    var totalCount, directCount, transitiveCount := 0, 0, 0;
    var inConfiguration := false;
    var i := 0;
    while i < |lines|
      invariant 0 <= i <= |lines|
      invariant Scanned(lines, i, dependencies, header, inConfiguration, find)
      invariant totalCount == |dependencies|
      invariant directCount == |Direct(dependencies)| && transitiveCount == |Transitive(dependencies)|
    {
      ScanStep(lines, i, dependencies, header, inConfiguration, find);
      var effect := ClassifyLine(lines[i], header, inConfiguration, find);
      match effect {
        case Enter =>
          inConfiguration := true;
        case Stop =>
          break;
        case Take(dep) =>
          DirectAppend(dependencies, dep);
          dependencies := dependencies + [dep];
          totalCount := totalCount + 1;
          if dep.level == 0 {
            directCount := directCount + 1;
          } else {
            transitiveCount := transitiveCount + 1;
          }
        case Skip =>
      }
      i := i + 1;
    }
    if i == |lines| {
      assert lines[i..] == [];
    }
    DirectPlusTransitive(dependencies);
    report := DependencyReport(dependencies, totalCount, directCount, transitiveCount);
  }

  // ---------------------------------------------------------------------
  // The response
  // ---------------------------------------------------------------------

  /** `formatDependency`: the coordinates, then "requested -> resolved" or the one version. */
  function FormatDependency(dep: Dependency): string {
    dep.group + ":" + dep.name + ":" +
    (if dep.requestedVersion != dep.resolvedVersion then dep.requestedVersion + " -> " + dep.resolvedVersion
     else dep.resolvedVersion)
  }

  const Arrow := " -> "

  lemma NoArrowWithoutSpace(s: string)
    requires ' ' !in s
    ensures !Contains(s, Arrow)
  {
    forall j | 0 <= j <= |s| ensures !OccursAt(s, Arrow, j) {
      if j < |s| {
        assert s[j] != ' ';
      }
    }
  }

  lemma FirstArrow(a: string, b: string)
    requires ' ' !in a
    ensures IndexOf(a + Arrow + b, Arrow) == Some(|a|)
  {
    var s := a + Arrow + b;
    assert OccursAt(s, Arrow, |a|) by {
      assert s[|a|..|a| + |Arrow|] == Arrow;
    }
    forall j | 0 <= j < |a| ensures !OccursAt(s, Arrow, j) {
      assert s[j] == a[j];
    }
  }

  /**
   * The versions can be read back from a formatted dependency: after the
   * coordinates, splitting at the first " -> " gives the requested and the
   * resolved version when they differ, and the one version when they are
   * equal (versions never hold whitespace, since the pattern captures them
   * as non-whitespace runs).
   */
  lemma FormatDependencyVersions(dep: Dependency)
    requires ' ' !in dep.requestedVersion && ' ' !in dep.resolvedVersion
    ensures var coordinates := dep.group + ":" + dep.name + ":";
            var f := FormatDependency(dep);
            && StartsWith(f, coordinates)
            && SplitOnce(f[|coordinates|..], Arrow) ==
               if dep.requestedVersion == dep.resolvedVersion then [dep.resolvedVersion]
               else [dep.requestedVersion, dep.resolvedVersion]
  {
    var coordinates := dep.group + ":" + dep.name + ":";
    var f := FormatDependency(dep);
    assert f[..|coordinates|] == coordinates;
    var versions := f[|coordinates|..];
    if dep.requestedVersion == dep.resolvedVersion {
      assert versions == dep.resolvedVersion;
      NoArrowWithoutSpace(versions);
    } else {
      assert versions == dep.requestedVersion + Arrow + dep.resolvedVersion;
      FirstArrow(dep.requestedVersion, dep.resolvedVersion);
      var n := |dep.requestedVersion|;
      assert versions[..n] == dep.requestedVersion;
      assert versions[n + |Arrow|..] == dep.resolvedVersion;
    }
  }

  const Rule50 := "=================================================="
  const Rule20 := "--------------------"

  /** The first lines of the response. */
  function Opening(configuration: string): string {
    "DEPENDENCIES for configuration: " + configuration + "\n" + Rule50 + "\n\n"
  }

  /** One line per level-0 dependency, in order, as the response's loop appends them. */
  function DirectListing(deps: seq<Dependency>): string {
    if deps == [] then ""
    else
      var last := deps[|deps| - 1];
      DirectListing(deps[..|deps| - 1]) + (if last.level == 0 then FormatDependency(last) + "\n" else "")
  }

  /** One line per dependency of `deps`, in order. */
  function Listing(deps: seq<Dependency>): string {
    if deps == [] then "" else Listing(deps[..|deps| - 1]) + FormatDependency(deps[|deps| - 1]) + "\n"
  }

  /** The listing names exactly the dependencies that count as direct, in order. */
  lemma {:induction false} DirectListingListsDirect(deps: seq<Dependency>)
    ensures DirectListing(deps) == Listing(Direct(deps))
  {
    if deps != [] {
      var init, last := deps[..|deps| - 1], deps[|deps| - 1];
      DirectListingListsDirect(init);
      if last.level == 0 {
        assert (Direct(init) + [last])[..|Direct(init)|] == Direct(init);
      } else {
        assert Direct(deps) == Direct(init);
      }
    }
  }

  /** The counters section. */
  function Counts(report: DependencyReport): string {
    "\nTotal Dependencies: " + IntToString(report.totalCount) + "\n"
    + "Direct Dependencies: " + IntToString(report.directCount) + "\n"
    + "Transitive Dependencies: " + IntToString(report.transitiveCount) + "\n"
  }

  /** The full report, appended after the counters. */
  function TreeSection(output: string): string {
    "\nDependency Tree:\n" + Rule20 + "\n" + output
  }

  /**
   * The response for a successful build: the opening, then either the
   * "no dependencies" line, or the direct dependencies one per line, the
   * counters, and the full report when transitive dependencies are shown
   * and there are some.
   */
  method DescribeDependencies(configuration: string, showTransitive: bool, output: string, report: DependencyReport)
    returns (response: string)
    ensures StartsWith(response, Opening(configuration))
    ensures report.dependencies == [] ==>
              response == Opening(configuration) + "No dependencies found for this configuration.\n"
    ensures report.dependencies != [] ==>
              StartsWith(response, Opening(configuration) + "Direct Dependencies:\n" + Rule20 + "\n"
                                   + DirectListing(report.dependencies) + Counts(report))
    ensures report.dependencies != [] && showTransitive && report.transitiveCount > 0 ==>
              EndsWith(response, Counts(report) + TreeSection(output))
    ensures report.dependencies != [] && !(showTransitive && report.transitiveCount > 0) ==>
              EndsWith(response, Counts(report))
  {
    var opening := Opening(configuration);
    response := opening;
    if report.dependencies == [] {
      response := response + "No dependencies found for this configuration.\n";
      ConcatEnds(opening, "No dependencies found for this configuration.\n");
      return;
    }
    response := response + "Direct Dependencies:\n" + Rule20 + "\n";
    ghost var heading := response;
    var deps := report.dependencies;
    for i := 0 to |deps|
      invariant response == heading + DirectListing(deps[..i])
    {
      assert deps[..i + 1][..i] == deps[..i];
      if deps[i].level == 0 {
        response := response + FormatDependency(deps[i]) + "\n";
      }
    }
    assert deps[..|deps|] == deps;
    var counts := Counts(report);
    response := response + counts;
    ghost var counted := response;
    ConcatEnds(heading + DirectListing(deps), counts);
    if showTransitive && report.transitiveCount > 0 {
      var tree := TreeSection(output);
      response := response + tree;
      ConcatEnds(counted, tree);
      EndsWithExtended(counted, tree, counts);
    } else {
      ConcatEnds(counted, []);
      assert counted + [] == counted;
    }
    StartsWithShortened(response, counted, heading + DirectListing(deps));
    StartsWithShortened(response, heading + DirectListing(deps), heading);
    StartsWithShortened(response, heading, opening);
  }

  /**
   * `handle`: the build is run through `executeBuild`; a failed build
   * answers with its summary as an error, an exception with
   * "Dependency analysis failed: " and its message (`connectMessage` for an
   * exception of the connector).
   */
  method Handle(manager: ConnectionManager, projectPath: Option<string>, configuration: Option<string>,
                showTransitive: Option<bool>, refresh: Option<bool>, now: nat, fs: FileSystem, reachable: bool,
                run: LaunchConfig -> BuildOutcome, find: Matcher, connectMessage: string)
    returns (result: ToolResult)
    requires manager.Valid()
    modifies manager, manager.connections.Values
    ensures manager.Valid()
    ensures var config := configuration.GetOr(DefaultConfiguration);
            var transitive := showTransitive.GetOr(DefaultShowTransitive);
            var refreshing := refresh.GetOr(DefaultRefresh);
            var (c, r) := Execute(old(manager.Abstract()), manager.workingDir, projectPath, Some(["dependencies"]),
                                  Some(DependencyArguments(config, transitive, refreshing)), now, fs, reachable, run);
            && manager.Abstract() == c
            && (result.isError <==> !(r.Success? && r.value.success))
            && (r.Failure? ==> result.text == "Dependency analysis failed: " + ErrorMessage(r.error, connectMessage))
            && (r.Success? && !r.value.success ==> result.text == Summary(r.value, ""))
            && (r.Success? && r.value.success ==> StartsWith(result.text, Opening(config)))
  {
    var config := configuration.GetOr(DefaultConfiguration);
    var transitive := showTransitive.GetOr(DefaultShowTransitive);
    var refreshing := refresh.GetOr(DefaultRefresh);
    var tasks, gradleArgs := BuildArguments(config, transitive, refreshing);
    assert gradleArgs == DependencyArguments(config, transitive, refreshing);
    var executed := ExecuteBuild(manager, projectPath, Some(tasks), Some(gradleArgs), now, fs, reachable, run);
    result := Respond(executed, config, transitive, find, connectMessage);
  }

  /**
   * What `handle` answers once `executeBuild` has returned or thrown: the
   * analysis of a successful build, the summary of a failed one, or
   * "Dependency analysis failed: " and the exception's message.
   */
  method Respond(executed: Result<BuildResult, Error>, configuration: string, showTransitive: bool, find: Matcher,
                 connectMessage: string) returns (result: ToolResult)
    ensures result.isError <==> !(executed.Success? && executed.value.success)
    ensures executed.Failure? ==> result.text == "Dependency analysis failed: " + ErrorMessage(executed.error, connectMessage)
    ensures executed.Success? && !executed.value.success ==> result.text == Summary(executed.value, "")
    ensures executed.Success? && executed.value.success ==> StartsWith(result.text, Opening(configuration))
    ensures executed.Success? && executed.value.success ==>
              var output := executed.value.output;
              var deps := Parsed(Split(output, '\n'), SectionHeader(configuration), false, find);
              var report := DependencyReport(deps, |deps|, |Direct(deps)|, |Transitive(deps)|);
              && (deps == [] ==> result.text == Opening(configuration) + "No dependencies found for this configuration.\n")
              && (deps != [] ==>
                    StartsWith(result.text, Opening(configuration) + "Direct Dependencies:\n" + Rule20 + "\n"
                                            + DirectListing(deps) + Counts(report)))
              && (deps != [] && showTransitive && report.transitiveCount > 0 ==>
                    EndsWith(result.text, Counts(report) + TreeSection(output)))
              && (deps != [] && !(showTransitive && report.transitiveCount > 0) ==>
                    EndsWith(result.text, Counts(report)))
  {
    match executed
    case Failure(e) =>
      result := ToolResult(true, "Dependency analysis failed: " + ErrorMessage(e, connectMessage));
    case Success(build) =>
      if build.success {
        var report := ParseDependencies(build.output, configuration, find);
        var response := DescribeDependencies(configuration, showTransitive, build.output, report);
        result := ToolResult(false, response);
      } else {
        result := ToolResult(true, Summary(build, ""));
      }
  }

  /** The argument list `BuildArguments` produces, as a value. */
  function DependencyArguments(configuration: string, showTransitive: bool, refresh: bool): seq<string> {
    [configuration] + (if showTransitive then [] else [NoTransitive]) + (if refresh then [RefreshDependencies] else [])
  }
}
