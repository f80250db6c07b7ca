# Gradle MCP server: connection cache and tool handlers

This project models the core of a Model Context Protocol server that drives
Gradle builds through the Gradle Tooling API, and proves properties of that
model in Dafny.

The centre is the connection cache (`GradleConnectionManager`). It maps a
normalised project path to a cached `ProjectConnection` together with the
time it was last used. It offers four operations:

- `getConnection` reuses a live entry and refreshes it, or else closes the expired connection and creates a new one.
- `closeConnection` removes one entry and closes it.
- `closeAll` closes every entry and empties the map.
- The cleanup thread's `removeIf` pass evicts and closes the expired entries.

The cache is modelled twice:

- As values. `Connections.Acquire`, `Release`, `CloseAllEntries` and `Sweep` act on a `Cache`.
- Imperatively. `Connections.ConnectionManager` holds a map of `CachedConnection` objects whose `lastUsed` field is updated in place. Each of its methods is proved to perform exactly the corresponding value transition.

Connections are opaque handle ids drawn from a counter. Every `close()` call
is recorded in a ghost multiset, so "closed exactly once" is a multiplicity
of one.

Around the cache sit the tool handlers:

- **Every handler (`BaseGradleHandler`):**
  - path validation;
  - the task and argument lists handed to the launcher (`--console=plain` by default);
  - how a completed or thrown build becomes a `BuildResult`;
  - `BuildResult.getSummary`.
- **`gradle_dependencies`:**
  - the argument list;
  - the scan of the dependency report for one configuration, with its counters;
  - the dependency level read off the tree prefix;
  - `formatDependency`;
  - the response text.
- **`gradle_tasks`:**
  - the recursive task collector over the project tree, with path prefixes and filters;
  - the fallback parser of the `tasks` command's text output;
  - grouping under "Other", the case-insensitive group sort and the name sort;
  - the response text.
- **`gradle_test`:**
  - the task and argument lists, including `--tests`, `--parallel` and `--info`;
  - the extraction of test counts with Java `int` arithmetic;
  - the response text.
- **`gradle_clean`:**
  - the task and argument lists;
  - the recursive directory size over a file tree;
  - the bytes reclaimed;
  - the unit selection of `formatBytes`;
  - the response text.

Where the Java code loops or fills a list in place, the model is a `method`
with a loop. It is proved equal to a specification function, and the
properties are proved about that function.

Each handler's `Handle` method models the handler's `handle`, including the
error result produced when an exception reaches it. The foreign parts are
parameters:

- `run`: what the launcher reports for a given configuration.
- `reachable`: whether `GradleConnector.connect()` succeeds.
- `fs` and `Tree`: what `java.io.File` sees.
- `now`: the clock.
- `find`: the first match of a regular expression.
- `twoDecimals`: the `%.2f` formatting.
- `model`: the `GradleProject` model, if it could be fetched.

Modules, one per file:

- `Wrappers`: `Option` and `Result`.
- `JavaStrings`: the `java.lang.String` operations used: `trim`, `split`, `startsWith`, `replace`, `Integer.parseInt`, and so on.
- `Files`: `File.exists`, `isDirectory` and `getAbsolutePath`.
- `Connections`: the connection cache.
- `BaseHandler`: the shared handler logic.
- `Dependencies`, `Tasks`, `TestRun`, `Clean`: one module per tool handler.

Source paths below are relative to the repository root.

## Model

| member | source | states |
|---|---|---|
| Connections.ExpiryIsStrict | src/main/java/com/brunorozendo/mcp/server/gradle/GradleConnectionManager.java:161-163 | An entry exactly five minutes old is still live; one millisecond later it has expired. |
| Connections.ExpiryPersists | src/main/java/com/brunorozendo/mcp/server/gradle/GradleConnectionManager.java:161-163 | While the clock does not go back, an expired entry stays expired. |
| Connections.CreateConnection | src/main/java/com/brunorozendo/mcp/server/gradle/GradleConnectionManager.java:67-88 | Creation succeeds iff the path is a directory holding one of the four build files and the connector connects. It fails with IllegalArgumentException iff the directory or the build files are missing. A non-directory gets the "Project directory does not exist: " message. |
| Connections.KeyIsCanonical | src/main/java/com/brunorozendo/mcp/server/gradle/GradleConnectionManager.java:41 | Under a normal absolute working directory: a key is its own key, a relative path and its absolute form share a key, and so do paths that differ only by a trailing separator or a doubled one. |
| Connections.AcquireContract | src/main/java/com/brunorozendo/mcp/server/gradle/GradleConnectionManager.java:40-65 | A hit returns the cached connection and closes and creates nothing. A miss closes the cached connection, if any. It then succeeds iff creation does, with a fresh connection stored at `now`. A failure keeps the mapping and reports creation's exception. |
| Connections.AcquireHit | src/main/java/com/brunorozendo/mcp/server/gradle/GradleConnectionManager.java:43-47 | A live entry is refreshed to `now` and its connection returned; nothing else changes. |
| Connections.AcquireMissFails | src/main/java/com/brunorozendo/mcp/server/gradle/GradleConnectionManager.java:49-62 | A miss whose creation throws closes the old connection, keeps the mapping and reports the exception. |
| Connections.AcquireMissCreates | src/main/java/com/brunorozendo/mcp/server/gradle/GradleConnectionManager.java:49-61 | A miss whose creation succeeds closes the old connection and caches the next fresh connection at `now`. |
| Connections.AcquireEvicting | src/main/java/com/brunorozendo/mcp/server/gradle/GradleConnectionManager.java:43-62 | Corrected `getConnection`: the same answer, but a failed acquire removes the entry for the key. |
| Connections.Release | src/main/java/com/brunorozendo/mcp/server/gradle/GradleConnectionManager.java:93-105 | `closeConnection` removes the key and closes its connection. An absent key changes nothing, and other keys are untouched. |
| Connections.CloseAllContract | src/main/java/com/brunorozendo/mcp/server/gradle/GradleConnectionManager.java:110-122 | `closeAll` empties the map and closes every cached connection once more, and no other connection. |
| Connections.SweepContract | src/main/java/com/brunorozendo/mcp/server/gradle/GradleConnectionManager.java:129-140 | The sweep keeps exactly the live entries, with their timestamps, and closes each expired entry's connection once and no other. |
| Connections.AcquireKeepsInv | src/main/java/com/brunorozendo/mcp/server/gradle/GradleConnectionManager.java:40-65 | `getConnection` keeps handles distinct and drawn from the counter. |
| Connections.SweepKeepsInv | src/main/java/com/brunorozendo/mcp/server/gradle/GradleConnectionManager.java:129-140 | The sweep keeps handles distinct and drawn from the counter. |
| Connections.AcquireNeverReturnsClosed | src/main/java/com/brunorozendo/mcp/server/gradle/GradleConnectionManager.java:43-62 | As written, `getConnection` never returns a closed connection, and a closed cached connection only sits in an expired entry. |
| Connections.FailedReplacementKeepsClosedConnection | src/main/java/com/brunorozendo/mcp/server/gradle/GradleConnectionManager.java:43-62 | As written, re-creation failing after expiry leaves a closed connection cached, and `closeConnection` then closes it a second time. |
| Connections.AcquireEvictingKeepsHealthy | src/main/java/com/brunorozendo/mcp/server/gradle/GradleConnectionManager.java:43-62 | The corrected acquire keeps the cache healthy (no cached closed connection, nothing closed twice) and never returns a closed connection. |
| Connections.ReleaseKeepsHealthy | src/main/java/com/brunorozendo/mcp/server/gradle/GradleConnectionManager.java:93-105 | `closeConnection` keeps the cache healthy. |
| Connections.CloseAllKeepsHealthy | src/main/java/com/brunorozendo/mcp/server/gradle/GradleConnectionManager.java:110-122 | `closeAll` keeps the cache healthy. |
| Connections.SweepKeepsHealthy | src/main/java/com/brunorozendo/mcp/server/gradle/GradleConnectionManager.java:129-140 | The sweep keeps the cache healthy. |
| Connections.SweepIdempotent | src/main/java/com/brunorozendo/mcp/server/gradle/GradleConnectionManager.java:129-140 | A second sweep at the same time removes and closes nothing. |
| Connections.RunKeepsHealthy | src/main/java/com/brunorozendo/mcp/server/gradle/GradleConnectionManager.java:40-140 | With the corrected acquire, any sequence of requests keeps a healthy cache healthy: no connection is ever closed twice. |
| Connections.CachedConnection.constructor | src/main/java/com/brunorozendo/mcp/server/gradle/GradleConnectionManager.java:152-155 | A new cached connection holds its connection, last used at `now`. |
| Connections.CachedConnection.UpdateLastUsed | src/main/java/com/brunorozendo/mcp/server/gradle/GradleConnectionManager.java:157-159 | `lastUsed` becomes `now`. |
| Connections.ConnectionManager.constructor | src/main/java/com/brunorozendo/mcp/server/gradle/GradleConnectionManager.java:22-25 | The manager starts with an empty cache, for an absolute working directory in normal form. |
| Connections.ConnectionManager.GetConnection | src/main/java/com/brunorozendo/mcp/server/gradle/GradleConnectionManager.java:40-65 | The objects' new state and the result are exactly `Acquire` on the old cache, the object graph stays valid, and new objects are fresh. |
| Connections.ConnectionManager.Refresh | src/main/java/com/brunorozendo/mcp/server/gradle/GradleConnectionManager.java:44-46 | Updates the live object in place; only that entry's time changes. |
| Connections.ConnectionManager.Store | src/main/java/com/brunorozendo/mcp/server/gradle/GradleConnectionManager.java:60-61 | Caches a fresh object holding the next connection at `now`; other entries are untouched. |
| Connections.ConnectionManager.CloseConnection | src/main/java/com/brunorozendo/mcp/server/gradle/GradleConnectionManager.java:93-105 | The new cache is exactly `Release` of the old one. |
| Connections.ConnectionManager.CloseAll | src/main/java/com/brunorozendo/mcp/server/gradle/GradleConnectionManager.java:110-122 | The new cache is exactly `CloseAllEntries` of the old one. |
| Connections.ConnectionManager.CloseEach | src/main/java/com/brunorozendo/mcp/server/gradle/GradleConnectionManager.java:113-119 | The `forEach` loop closes the connection of every entry once. |
| Connections.ConnectionManager.CleanupStaleConnections | src/main/java/com/brunorozendo/mcp/server/gradle/GradleConnectionManager.java:129-140 | The new cache is exactly `Sweep` of the old one. |
| Connections.RemoveExpired | src/main/java/com/brunorozendo/mcp/server/gradle/GradleConnectionManager.java:129-140 | The `removeIf` loop keeps exactly the live entries, unchanged, and closes one connection per expired entry. |
| Files.AbsolutePath | src/main/java/com/brunorozendo/mcp/server/gradle/GradleConnectionManager.java:41 | The path is first put in `File`'s normal form. An absolute path is then that normal form; any other non-empty path is its normal form resolved against the working directory, and the result is absolute. |
| Files.NormalizeIsNormal | src/main/java/com/brunorozendo/mcp/server/gradle/GradleConnectionManager.java:41 | `File`'s normal form has no repeated separator and no trailing one except on the root, and a path already in that form is unchanged. |
| Files.TrailingSeparatorIgnored | src/main/java/com/brunorozendo/mcp/server/gradle/GradleConnectionManager.java:41 | A non-empty path and the same path with a separator appended have the same normal form. |
| Files.RepeatedSeparatorIgnored | src/main/java/com/brunorozendo/mcp/server/gradle/GradleConnectionManager.java:41 | Doubling a separator anywhere in a path does not change its normal form. |
| Files.ChildNormal | src/main/java/com/brunorozendo/mcp/server/gradle/GradleConnectionManager.java:41 | Under a normal directory, the child of a relative name normalises to the child of the name's normal form. |
| Files.Child | src/main/java/com/brunorozendo/mcp/server/gradle/GradleConnectionManager.java:74-77 | A file inside an absolute directory has an absolute path. |
| JavaStrings.Trim | src/main/java/io/modelcontextprotocol/gradleserver/handlers/BaseGradleHandler.java:98 | `trim()` is empty iff the string is blank, and otherwise starts and ends with a non-whitespace character. |
| JavaStrings.TrimIdempotent | src/main/java/io/modelcontextprotocol/gradleserver/handlers/GradleTasksHandler.java:178 | Trimming twice is trimming once. |
| JavaStrings.Split | src/main/java/io/modelcontextprotocol/gradleserver/handlers/GradleDependenciesHandler.java:135 | `split("\n")` is the split at every separator, with trailing empty strings dropped. |
| JavaStrings.JoinSplitOn | src/main/java/io/modelcontextprotocol/gradleserver/handlers/GradleDependenciesHandler.java:135 | Joining the pieces of a split with the separator gives back the string. |
| JavaStrings.SplitOnce | src/main/java/io/modelcontextprotocol/gradleserver/handlers/GradleTasksHandler.java:192 | `split(" - ", 2)` gives one piece iff the separator is absent, and otherwise splits at its first occurrence. |
| JavaStrings.IndexOf | src/main/java/io/modelcontextprotocol/gradleserver/handlers/GradleDependenciesHandler.java:140 | The result is the first occurrence of the substring, or none when there is none. |
| JavaStrings.RemoveTrailingOccurrence | src/main/java/io/modelcontextprotocol/gradleserver/handlers/GradleTasksHandler.java:182 | `replace(" tasks", "")` on a heading whose only occurrence is the final one yields the group name. |
| JavaStrings.ParseInt32 | src/main/java/com/brunorozendo/mcp/server/gradle/handlers/GradleTestHandler.java:150-152 | `Integer.parseInt` yields a value in the `int` range, and accepts a digit string iff its value fits. |
| JavaStrings.ParseIntToString | src/main/java/com/brunorozendo/mcp/server/gradle/handlers/GradleTestHandler.java:150-152 | Parsing the decimal text of an `int` gives it back. |
| JavaStrings.NatToString | src/main/java/io/modelcontextprotocol/gradleserver/handlers/GradleCleanHandler.java:146 | The decimal text of a number is digits denoting that number. |
| BaseHandler.ValidationAccepts | src/main/java/io/modelcontextprotocol/gradleserver/handlers/BaseGradleHandler.java:97-110 | A path passes iff it is present, not blank and an existing directory. Every rejection is an IllegalArgumentException, and a blank path gets the "cannot be null or empty" message. |
| BaseHandler.LaunchTasks | src/main/java/io/modelcontextprotocol/gradleserver/handlers/BaseGradleHandler.java:47-49 | Tasks are set iff the list is present and non-empty, and then unchanged. |
| BaseHandler.AssembleArguments | src/main/java/io/modelcontextprotocol/gradleserver/handlers/BaseGradleHandler.java:52-60 | The list-building loop yields `LaunchArguments`. |
| BaseHandler.LaunchArgumentsShape | src/main/java/io/modelcontextprotocol/gradleserver/handlers/BaseGradleHandler.java:52-64 | The arguments are the caller's, in order, followed by `--console=plain` iff `--console` is not an element. The list is never empty. |
| BaseHandler.ConsoleValueFormNotRecognised | src/main/java/io/modelcontextprotocol/gradleserver/handlers/BaseGradleHandler.java:58-60 | Only the bare element `--console` suppresses the default, so `--console=rich` still gets `--console=plain` after it. |
| BaseHandler.CompletionContract | src/main/java/io/modelcontextprotocol/gradleserver/handlers/BaseGradleHandler.java:71-90 | A completed build succeeds with its streams and duration. A thrown one fails with duration 0, and its errors are the exception message only when stderr is empty. |
| BaseHandler.ExecuteContract | src/main/java/io/modelcontextprotocol/gradleserver/handlers/BaseGradleHandler.java:36-92 | A rejected path touches no connection. Otherwise the cache changes as `getConnection` changes it, and a build that ran reports what the launcher, given the assembled tasks and arguments, reported. |
| BaseHandler.ExecuteBuild | src/main/java/io/modelcontextprotocol/gradleserver/handlers/BaseGradleHandler.java:36-92 | The manager's new cache and the result are exactly `Execute` on the old cache. |
| BaseHandler.SummaryVerdict | src/main/java/io/modelcontextprotocol/gradleserver/handlers/BaseGradleHandler.java:151-158 | The summary starts with "BUILD SUCCESSFUL\n" iff the build succeeded, and otherwise with "BUILD FAILED\n". |
| BaseHandler.SummaryReportsTime | src/main/java/io/modelcontextprotocol/gradleserver/handlers/BaseGradleHandler.java:151-155 | The time line follows the verdict iff the build succeeded with a positive duration. |
| BaseHandler.SummaryTail | src/main/java/io/modelcontextprotocol/gradleserver/handlers/BaseGradleHandler.java:160-166 | The summary ends with the errors section when errors are present, otherwise with the output section when output is present, otherwise with the verdict. |
| BaseHandler.ThrownMessageReported | src/main/java/io/modelcontextprotocol/gradleserver/handlers/BaseGradleHandler.java:80-90 | A build that threw with a message and empty stderr is summarised as failed, ending with that message as its errors. |
| Dependencies.BuildArguments | src/main/java/io/modelcontextprotocol/gradleserver/handlers/GradleDependenciesHandler.java:71-84 | Tasks are exactly ["dependencies"]. The arguments are the configuration, then `--no-transitive` iff not transitive, then `--refresh-dependencies` iff refresh. |
| Dependencies.CalculateDependencyLevel | src/main/java/io/modelcontextprotocol/gradleserver/handlers/GradleDependenciesHandler.java:184-193 | The counting loop yields the number of '+', '\\', '\|', '-' characters divided by 4, which lies between 0 and a quarter of the prefix length. |
| Dependencies.ShallowTransitiveCountedDirect | src/main/java/io/modelcontextprotocol/gradleserver/handlers/GradleDependenciesHandler.java:184-193 | As written, a dependency nested one or two levels deep gets level 0. |
| Dependencies.ChildOfFirstDependencyIsLevelZero | src/main/java/io/modelcontextprotocol/gradleserver/handlers/GradleDependenciesHandler.java:184-193 | The prefix "\|    \\" of a child of a direct dependency is read at level 0. |
| Dependencies.TreeLevelIsDepth | src/main/java/io/modelcontextprotocol/gradleserver/handlers/GradleDependenciesHandler.java:184-193 | Corrected level: every tree prefix gets its nesting depth, and 0 exactly for direct dependencies. |
| Dependencies.DependencyOf | src/main/java/io/modelcontextprotocol/gradleserver/handlers/GradleDependenciesHandler.java:153-167 | The resolved version is the captured one when present, otherwise the requested version. The coordinates are the captures. The level is non-negative. |
| Dependencies.LinesBeforeHeaderIgnored | src/main/java/io/modelcontextprotocol/gradleserver/handlers/GradleDependenciesHandler.java:140-143 | Lines before the first line containing `configuration + " -"` contribute nothing. |
| Dependencies.SectionBoundaries | src/main/java/io/modelcontextprotocol/gradleserver/handlers/GradleDependenciesHandler.java:140-148 | A header line enters the section and is not parsed. Inside, a line that trims to empty and does not start with a space ends the scan. Outside, other lines are skipped. |
| Dependencies.Direct | src/main/java/io/modelcontextprotocol/gradleserver/handlers/GradleDependenciesHandler.java:172-173 | The direct dependencies are all at level 0. |
| Dependencies.Transitive | src/main/java/io/modelcontextprotocol/gradleserver/handlers/GradleDependenciesHandler.java:174-175 | The transitive dependencies are all at a nonzero level. |
| Dependencies.DirectTransitiveComplete | src/main/java/io/modelcontextprotocol/gradleserver/handlers/GradleDependenciesHandler.java:172-176 | Every level-0 dependency is direct and every other one is transitive. |
| Dependencies.DirectPlusTransitive | src/main/java/io/modelcontextprotocol/gradleserver/handlers/GradleDependenciesHandler.java:169-176 | The direct and transitive counts add up to the number of dependencies. |
| Dependencies.ClassifyLine | src/main/java/io/modelcontextprotocol/gradleserver/handlers/GradleDependenciesHandler.java:140-167 | The tests of one line, in the source's order, agree with `Classify`. |
| Dependencies.ParseDependencies | src/main/java/io/modelcontextprotocol/gradleserver/handlers/GradleDependenciesHandler.java:132-182 | The report lists the dependencies of the configuration's section of the split output, with `totalCount == directCount + transitiveCount` equal to their number, and `directCount` the number at level 0. |
| Dependencies.ScanLines | src/main/java/io/modelcontextprotocol/gradleserver/handlers/GradleDependenciesHandler.java:138-179 | The scanning loop yields exactly `Parsed`, with counters that agree with it. |
| Dependencies.FormatDependencyVersions | src/main/java/io/modelcontextprotocol/gradleserver/handlers/GradleDependenciesHandler.java:195-206 | The text is "group:name:" followed by "requested -> resolved" when the versions differ, else the one version. The versions read back by splitting at the first " -> ". |
| Dependencies.DirectListingListsDirect | src/main/java/io/modelcontextprotocol/gradleserver/handlers/GradleDependenciesHandler.java:102-106 | The listing loop lists exactly the direct dependencies, in order. |
| Dependencies.DescribeDependencies | src/main/java/io/modelcontextprotocol/gradleserver/handlers/GradleDependenciesHandler.java:92-120 | The response opens with the configuration banner. It says "No dependencies found" iff the report is empty, else lists the direct ones and the counters. It ends with the tree iff transitive dependencies are shown and exist. |
| Dependencies.Respond | src/main/java/io/modelcontextprotocol/gradleserver/handlers/GradleDependenciesHandler.java:86-128 | The result is an error iff the build did not run or failed. It is the build summary on failure, and "Dependency analysis failed: " plus the message on an exception. On success, with the report parsed from the output: exactly the banner and "No dependencies found" when there are none; otherwise the banner, the direct listing and the counters, ending with the dependency tree iff transitive dependencies are shown and exist. |
| Dependencies.Handle | src/main/java/io/modelcontextprotocol/gradleserver/handlers/GradleDependenciesHandler.java:60-130 | Runs the build with the omitted arguments defaulted as the source does: configuration "compileClasspath", showTransitive true, refresh false. The result is an error iff the build did not run or failed. It is the build summary on failure, and "Dependency analysis failed: " plus the message on an exception. |
| Tasks.CollectTasks | src/main/java/io/modelcontextprotocol/gradleserver/handlers/GradleTasksHandler.java:132-162 | The recursive method appends exactly `Collected`: the project's own kept tasks, then each subproject's in turn. |
| Tasks.CollectedKept | src/main/java/io/modelcontextprotocol/gradleserver/handlers/GradleTasksHandler.java:137-147 | Every collected task is public unless `includeAll`, and of the filter's group, ignoring case, when a filter is given. |
| Tasks.CollectedIsFiltered | src/main/java/io/modelcontextprotocol/gradleserver/handlers/GradleTasksHandler.java:132-162 | Collecting with filters is filtering the unfiltered pre-order listing of the whole tree. |
| Tasks.OwnTasksFirst | src/main/java/io/modelcontextprotocol/gradleserver/handlers/GradleTasksHandler.java:134-161 | A project's own tasks come first, in source order, before any subproject's. |
| Tasks.CollectedPaths | src/main/java/io/modelcontextprotocol/gradleserver/handlers/GradleTasksHandler.java:135-159 | Below a non-empty prefix every task path starts with `prefix + ":"`. |
| Tasks.FallbackArguments | src/main/java/io/modelcontextprotocol/gradleserver/handlers/GradleTasksHandler.java:165-168 | The `tasks` command gets "--all" iff `includeAll`, and nothing else. |
| Tasks.ReadTaskLine | src/main/java/io/modelcontextprotocol/gradleserver/handlers/GradleTasksHandler.java:178-201 | The tests of one line, in the source's order, agree with `KindOf`. |
| Tasks.ParseTaskLines | src/main/java/io/modelcontextprotocol/gradleserver/handlers/GradleTasksHandler.java:173-204 | The parsing loop with its mutable current group yields exactly `ParsedTasks`. |
| Tasks.ParsedTasksAccepted | src/main/java/io/modelcontextprotocol/gradleserver/handlers/GradleTasksHandler.java:197-200 | Every parsed task is public and of an accepted group. |
| Tasks.HeadingKind | src/main/java/io/modelcontextprotocol/gradleserver/handlers/GradleTasksHandler.java:181-183 | A heading "G tasks" makes `G` the current group. |
| Tasks.UnderlineKind | src/main/java/io/modelcontextprotocol/gradleserver/handlers/GradleTasksHandler.java:187-189 | A line of dashes is skipped. |
| Tasks.EntryKind | src/main/java/io/modelcontextprotocol/gradleserver/handlers/GradleTasksHandler.java:192-196 | "name - description" reads as that name and description, and a bare name has no description. |
| Tasks.ParseReport | src/main/java/io/modelcontextprotocol/gradleserver/handlers/GradleTasksHandler.java:174-204 | On any well-formed `tasks` report the parser recovers exactly the listed tasks of the accepted groups, each under its heading's group. |
| Tasks.DescriptionEndingInTasksReadAsHeading | src/main/java/io/modelcontextprotocol/gradleserver/handlers/GradleTasksHandler.java:181-183 | As written, a task line whose description ends in " tasks" is taken for a group heading. |
| Tasks.OtherGroupRule | src/main/java/io/modelcontextprotocol/gradleserver/handlers/GradleTasksHandler.java:72-73 | A task is listed under "Other" iff it has no group or its group is "Other". |
| Tasks.KeysDistinct | src/main/java/io/modelcontextprotocol/gradleserver/handlers/GradleTasksHandler.java:72-73 | The group keys are distinct. |
| Tasks.KeysCover | src/main/java/io/modelcontextprotocol/gradleserver/handlers/GradleTasksHandler.java:72-73 | Every task's key is a group key, and the task is a member of its group. |
| Tasks.KeysHaveMembers | src/main/java/io/modelcontextprotocol/gradleserver/handlers/GradleTasksHandler.java:72-73 | No group is empty. |
| Tasks.MembersBelong | src/main/java/io/modelcontextprotocol/gradleserver/handlers/GradleTasksHandler.java:72-73 | A group's members are tasks with that key. |
| Tasks.LexLeqTotal | src/main/java/io/modelcontextprotocol/gradleserver/handlers/GradleTasksHandler.java:76-77 | The string comparison, with or without case folding, is total. |
| Tasks.SortedByContract | src/main/java/io/modelcontextprotocol/gradleserver/handlers/GradleTasksHandler.java:76-84 | The sort yields an ordered permutation of its input. |
| Tasks.GroupsListedOnce | src/main/java/io/modelcontextprotocol/gradleserver/handlers/GradleTasksHandler.java:72-77 | Groups are in case-insensitive order, each task's group appears exactly once, and every group has tasks. |
| Tasks.MembersListed | src/main/java/io/modelcontextprotocol/gradleserver/handlers/GradleTasksHandler.java:83-84 | A group's tasks are sorted by name and are a permutation of exactly its members. |
| Tasks.PadRight | src/main/java/io/modelcontextprotocol/gradleserver/handlers/GradleTasksHandler.java:87-89 | `%-30s` keeps the name and pads it with spaces to at least the width. |
| Tasks.DescribeTasks | src/main/java/io/modelcontextprotocol/gradleserver/handlers/GradleTasksHandler.java:64-99 | The response-building loops yield exactly `TasksResponse`. |
| Tasks.ResponseOpens | src/main/java/io/modelcontextprotocol/gradleserver/handlers/GradleTasksHandler.java:64-69 | The response opens with the banner, and with no tasks it is the banner and "No tasks found matching the criteria.". |
| Tasks.ResponseCloses | src/main/java/io/modelcontextprotocol/gradleserver/handlers/GradleTasksHandler.java:94-98 | With tasks, the response ends with the total, followed by the tip unless `includeAll`. |
| Tasks.TipShown | src/main/java/io/modelcontextprotocol/gradleserver/handlers/GradleTasksHandler.java:96-98 | The response ends with the tip iff there are tasks and `includeAll` is false. |
| Tasks.ProjectTasksContract | src/main/java/io/modelcontextprotocol/gradleserver/handlers/GradleTasksHandler.java:110-130 | A rejected path touches no connection. The model's tasks need only `getConnection`. Every listed task passes the filters. |
| Tasks.GetTasksViaCommand | src/main/java/io/modelcontextprotocol/gradleserver/handlers/GradleTasksHandler.java:164-205 | The manager's new cache and the result are exactly `CommandTasks`: the `tasks` build, then the parse of its output. |
| Tasks.GetProjectTasks | src/main/java/io/modelcontextprotocol/gradleserver/handlers/GradleTasksHandler.java:110-130 | The manager's new cache and the result are exactly `ProjectTasks`, falling back to the command when there is no model. |
| Tasks.Handle | src/main/java/io/modelcontextprotocol/gradleserver/handlers/GradleTasksHandler.java:52-108 | An omitted includeAll is false. The result is the task listing on success and "Failed to list tasks: " plus the message on an exception. |
| TestRun.BuildTestLaunch | src/main/java/com/brunorozendo/mcp/server/gradle/handlers/GradleTestHandler.java:81-105 | Tasks are ["test"], plus "integrationTest" iff requested. The arguments are `TestArguments`. |
| TestRun.RequestedArgumentsOrder | src/main/java/com/brunorozendo/mcp/server/gradle/handlers/GradleTestHandler.java:88-100 | The caller's arguments come first, in order, then "--tests" and the filter iff it is non-empty, then "--parallel" iff requested. |
| TestRun.InfoAddedOnce | src/main/java/com/brunorozendo/mcp/server/gradle/handlers/GradleTestHandler.java:103-105 | "--info" is appended iff absent. It is then present, and never duplicated by the handler. |
| TestRun.Int32Sub | src/main/java/com/brunorozendo/mcp/server/gradle/handlers/GradleTestHandler.java:153 | Java `int` subtraction: in range, congruent to the true difference modulo 2^32, and exact when that fits. |
| TestRun.ParseTestResultsContract | src/main/java/com/brunorozendo/mcp/server/gradle/handlers/GradleTestHandler.java:146-161 | The result is present iff there is a match and every present number parses as an `int`, with missing counts 0. `passed + failed + skipped == total` modulo 2^32, and exactly when no overflow occurs. |
| TestRun.ParseTestResultsReadsCounts | src/main/java/com/brunorozendo/mcp/server/gradle/handlers/GradleTestHandler.java:148-155 | The counts Gradle prints are read back exactly, with `passed = total - failed - skipped`. |
| TestRun.DescribeTests | src/main/java/com/brunorozendo/mcp/server/gradle/handlers/GradleTestHandler.java:114-133 | The response-building steps yield exactly `TestResponse`. |
| TestRun.TestResponseVerdict | src/main/java/com/brunorozendo/mcp/server/gradle/handlers/GradleTestHandler.java:115 | The response starts with "TEST EXECUTION SUCCESSFUL\n" iff the build succeeded, else with "TEST EXECUTION FAILED\n". |
| TestRun.TestResponseCounters | src/main/java/com/brunorozendo/mcp/server/gradle/handlers/GradleTestHandler.java:118-125 | The test summary follows the verdict iff the counts were parsed. |
| TestRun.Handle | src/main/java/com/brunorozendo/mcp/server/gradle/handlers/GradleTestHandler.java:72-144 | Runs the build with those tasks and arguments; an omitted includeIntegrationTests or parallel is false. The result is an error iff the build did not run or failed. The text is the test response, or "Test execution failed: " plus the message. |
| Clean.BuildCleanLaunch | src/main/java/io/modelcontextprotocol/gradleserver/handlers/GradleCleanHandler.java:57-66 | Tasks are ["clean"], plus "cleanBuildCache" iff requested. The arguments are `--no-build-cache` iff requested, and otherwise empty. |
| Clean.CalculateDirectorySize | src/main/java/io/modelcontextprotocol/gradleserver/handlers/GradleCleanHandler.java:125-142 | The recursive loop yields `DirectorySize`. |
| Clean.DirectorySizeIsFileTotal | src/main/java/io/modelcontextprotocol/gradleserver/handlers/GradleCleanHandler.java:125-142 | A missing path or a file has size 0; a directory has the total length of all files below it. |
| Clean.ListedSizeIsFileTotal | src/main/java/io/modelcontextprotocol/gradleserver/handlers/GradleCleanHandler.java:130-141 | Summing a listing entry by entry is the total length of the files below it. |
| Clean.FormatBytesUnit | src/main/java/io/modelcontextprotocol/gradleserver/handlers/GradleCleanHandler.java:144-153 | Below 1024 the count is printed in B. Otherwise KB, MB or GB is chosen by the thresholds 1024, 1024² and 1024³, dividing by that power. |
| Clean.SmallCountsReadBack | src/main/java/io/modelcontextprotocol/gradleserver/handlers/GradleCleanHandler.java:145-146 | A count below 1024 prints as its decimal text and " B", which parses back to it. |
| Clean.DescribeClean | src/main/java/io/modelcontextprotocol/gradleserver/handlers/GradleCleanHandler.java:84-112 | The response-building steps yield exactly `CleanResponse`. |
| Clean.CleanResponseVerdict | src/main/java/io/modelcontextprotocol/gradleserver/handlers/GradleCleanHandler.java:85 | The response starts with "CLEAN SUCCESSFUL\n" iff the build succeeded, else with "CLEAN FAILED\n". |
| Clean.BreakdownShown | src/main/java/io/modelcontextprotocol/gradleserver/handlers/GradleCleanHandler.java:88-93 | The "Cleaned:" breakdown follows the verdict iff the build succeeded and the total reclaimed is positive. |
| Clean.BlockTitle | src/main/java/io/modelcontextprotocol/gradleserver/handlers/GradleCleanHandler.java:89 | The breakdown opens with "Cleaned: ". |
| Clean.CleanupReported | src/main/java/io/modelcontextprotocol/gradleserver/handlers/GradleCleanHandler.java:104-112 | After a successful build with dependency cleaning requested, the response ends with the cleanup outcome line. |
| Clean.Respond | src/main/java/io/modelcontextprotocol/gradleserver/handlers/GradleCleanHandler.java:77-116 | The reclaimed bytes are the before and after sizes' differences per directory. Cleanup is attempted iff requested and the build succeeded. The result is an error iff the build failed or did not run. |
| Clean.Handle | src/main/java/io/modelcontextprotocol/gradleserver/handlers/GradleCleanHandler.java:50-122 | Runs the clean build with those tasks and arguments; an omitted cleanBuildCache or cleanDependencies is false. The response reports the bytes freed under `build` and `.gradle`, or "Clean failed: " plus the message. |

## Left out

- **Concurrency.** `ConcurrentHashMap.compute` atomicity and the daemon cleanup thread, with its sleep and interrupt handling, are not modelled. The cache's operations are sequential, and the sweep is one operation taking `now`.
- **The clock.** `Instant.now()` and `Duration` are not modelled. Time is a `now` parameter in whole milliseconds.
- **The Gradle Tooling API.** `connect`, `newBuild`, `run`, `getModel` and `close` are not modelled. They become the parameters `reachable`, `run` and `model`; a `close` that throws is only logged by the source and changes nothing but the ghost record of close calls.
- **The real filesystem.** `exists`, `isDirectory`, `listFiles` and `length` are not modelled; the model reads them from the `FileSystem` and `Tree` values given to it.
- **Path normalisation.** `java.io.File` collapses repeated separators and drops a trailing one, and the model does the same. Like the source, it does not resolve `.` or `..` segments, so "/p/../p" and "/p" are two cache keys. A `ConnectionManager` requires its working directory to be absolute and in normal form, as a JVM's `user.dir` is, and `KeyIsCanonical` assumes the same.
- **Dependency cleanup.** `cleanDependenciesCache` and `deleteDirectory` act on the filesystem. The outcome of the cleanup is the parameter `dependenciesCleaned`.
- **Regular expressions.** DEPENDENCY_PATTERN and TEST_SUMMARY_PATTERN are not interpreted. Their first match is the parameter `find`, returning the capture groups. TEST_RESULT_PATTERN is never used by the handler.
- **Floating point.** `%.2f` in `formatBytes` and in the "Total time" line of `getSummary` is the parameter `twoDecimals`, or the `seconds` text. Only the unit and branch selection are modelled.
- **Glue code.** JSON schemas, Reactor `Mono` wrapping, logging and the `CallToolResult` builders are not modelled; a tool result is a pair of an error flag and a text.
- **Unmodelled files.** `GradleMcpServerMain` (server wiring, stdio transport, shutdown hook) and `GradleBuildHandler` (a pass-through that sets a system property) are not part of this model.
- **Package mismatch.** `BaseGradleHandler` imports a `GradleConnectionManager` from another package, and `GradleTestHandler` extends a `BaseGradleHandler` of another package. Neither of those files is part of this model; both are taken to behave like the ones modelled here.
- **Integer widths.** Java `long` byte counts and durations are unbounded integers, since overflow would need exabytes. Only the `int` arithmetic of the test counts is wrapped explicitly.
- **Map order.** `groupingBy` builds a `HashMap`, whose key order is not modelled; the model starts the group sort from the order of first appearance. The sort is proved ordered and a permutation, so only group keys that differ only in case can come out in a different relative order than in the source, where that order depends on the `HashMap`.
- **Case folding.** `equalsIgnoreCase` and `compareToIgnoreCase` fold ASCII letters only, not all of Unicode.
- **Cached handles.** As written, `getConnection` keeps a closed handle cached after a failed re-creation. The handlers therefore use the as-written `Acquire`, and `AcquireEvicting` is the correction proved beside it. The same holds for the dependency level.
- Dependencies.DescribeDependencies: states the opening, the direct listing with the counters, and the closing section. It does not state the full text character by character.
- Clean.Handle: the filesystem seen by validation and `createConnection` (`fs`) and the one the directory sizes are read from (`before`) are separate parameters, and the model does not require them to agree about the project directory.
- Dependencies.Handle: on success, states only that the response opens with the configuration banner. The rest follows from `DescribeDependencies`.
- Tasks.ParseReport: holds for reports whose group names and task lines avoid the shapes the parser misreads. `DescriptionEndingInTasksReadAsHeading` shows one such shape.

## Findings

| source | as written | input that shows it | evidently intended | confidence | as-written member | corrected member |
|---|---|---|---|---|---|---|
| src/main/java/com/brunorozendo/mcp/server/gradle/GradleConnectionManager.java:43-62 | The expired connection is closed inside the `compute` callback before the new one is created. When creation throws, `compute` keeps the old mapping, so the map holds a closed connection. | Cache `/p` at time 0. After more than five minutes, call `getConnection("/p")` while `connect()` throws. Then `closeConnection("/p")` closes connection 0 a second time. | A failed acquire leaves no entry behind, and no connection is closed twice. | not executed | Connections.FailedReplacementKeepsClosedConnection | Connections.AcquireEvictingKeepsHealthy |
| src/main/java/io/modelcontextprotocol/gradleserver/handlers/GradleDependenciesHandler.java:184-193 | The level is the number of tree-marker characters divided by 4. The prefix that DEPENDENCY_PATTERN captures holds one marker per ancestor column plus one. | "\|    \\--- a:b:1", a child of a direct dependency, has prefix "\|    \\" with two markers. It gets level 0 and is counted as direct. | The level is the nesting depth: 0 exactly for direct dependencies. | not executed | Dependencies.ShallowTransitiveCountedDirect | Dependencies.TreeLevelIsDepth |
