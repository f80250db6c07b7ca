/**
 * `GradleTasksHandler`: the task listing. The tasks come from the Gradle
 * project model, collected recursively over the project tree with path
 * prefixes and filters; when the model cannot be fetched they come from the
 * text output of the `tasks` command instead. The response lists them by
 * group.
 */
module Tasks {
  import opened Wrappers
  import opened JavaStrings
  import opened Files
  import opened Connections
  import opened BaseHandler

  /** A task of the Gradle project model. */
  datatype GradleTask = GradleTask(name: string, group: Option<string>, description: Option<string>, isPublic: bool)

  /** A project of the Gradle project model, with its subprojects. */
  datatype GradleProject = GradleProject(name: string, tasks: seq<GradleTask>, children: seq<GradleProject>)

  /** `TaskInfo`: a listed task, named by its path. */
  datatype TaskInfo = TaskInfo(name: string, group: Option<string>, description: Option<string>, isPublic: bool)

  // ---------------------------------------------------------------------
  // collectTasks
  // ---------------------------------------------------------------------

  /** The path of `name` below `prefix`; the root project has the empty prefix. */
  function TaskPath(prefix: string, name: string): string {
    if prefix == "" then name else prefix + ":" + name
  }

  /** The group filter is in force when it is given and not empty. */
  predicate Filtering(groupFilter: Option<string>) {
    groupFilter.Some? && groupFilter.value != ""
  }

  /** Whether a task of this group and visibility passes both filters of `collectTasks`. */
  predicate Kept(group: Option<string>, isPublic: bool, includeAll: bool, groupFilter: Option<string>) {
    && (Filtering(groupFilter) ==> group.Some? && EqualsIgnoreCase(group.value, groupFilter.value))
    && (includeAll || isPublic)
  }

  /** The listed form of a task of the project at `prefix`. */
  function Listed(task: GradleTask, prefix: string): TaskInfo {
    TaskInfo(TaskPath(prefix, task.name), task.group, task.description, task.isPublic)
  }

  /** The tasks among `tasks` that pass the filters, listed in order. */
  function OwnTasks(tasks: seq<GradleTask>, includeAll: bool, groupFilter: Option<string>, prefix: string): seq<TaskInfo> {
    if tasks == [] then []
    else
      var task := tasks[|tasks| - 1];
      OwnTasks(tasks[..|tasks| - 1], includeAll, groupFilter, prefix) +
      (if Kept(task.group, task.isPublic, includeAll, groupFilter) then [Listed(task, prefix)] else [])
  }

  /** What `collectTasks` appends for `project` at `prefix`: its own tasks, then those of each subproject in turn. */
  function Collected(project: GradleProject, includeAll: bool, groupFilter: Option<string>, prefix: string): seq<TaskInfo>
    decreases project
  {
    OwnTasks(project.tasks, includeAll, groupFilter, prefix) +
    CollectedChildren(project.children, includeAll, groupFilter, prefix)
  }

  /** What `collectTasks` appends for the subprojects `children` of the project at `prefix`. */
  function CollectedChildren(children: seq<GradleProject>, includeAll: bool, groupFilter: Option<string>, prefix: string): seq<TaskInfo>
    decreases children
  {
    if children == [] then []
    else
      var child := children[|children| - 1];
      CollectedChildren(children[..|children| - 1], includeAll, groupFilter, prefix) +
      Collected(child, includeAll, groupFilter, TaskPath(prefix, child.name))
  }

  /** After the first `i` tasks of the project, `collected` holds `tasks` followed by those that were kept. */
  predicate OwnCollected(collected: seq<TaskInfo>, tasks: seq<TaskInfo>, own: seq<GradleTask>, i: nat,
                         includeAll: bool, groupFilter: Option<string>, prefix: string)
    requires i <= |own|
  {
    collected == tasks + OwnTasks(own[..i], includeAll, groupFilter, prefix)
  }

  /** One more task of the project: it is listed when it passes the filters, and skipped otherwise. */
  lemma OwnTasksStep(collected: seq<TaskInfo>, tasks: seq<TaskInfo>, own: seq<GradleTask>, i: nat,
                     includeAll: bool, groupFilter: Option<string>, prefix: string)
    requires i < |own| && OwnCollected(collected, tasks, own, i, includeAll, groupFilter, prefix)
    ensures Kept(own[i].group, own[i].isPublic, includeAll, groupFilter) ==>
            OwnCollected(collected + [Listed(own[i], prefix)], tasks, own, i + 1, includeAll, groupFilter, prefix)
    ensures !Kept(own[i].group, own[i].isPublic, includeAll, groupFilter) ==>
            OwnCollected(collected, tasks, own, i + 1, includeAll, groupFilter, prefix)
  {
    assert own[..i + 1][..i] == own[..i];
  }

  /** After the first `j` subprojects, `collected` holds `own` followed by their tasks. */
  predicate ChildrenCollected(collected: seq<TaskInfo>, own: seq<TaskInfo>, children: seq<GradleProject>, j: nat,
                              includeAll: bool, groupFilter: Option<string>, prefix: string)
    requires j <= |children|
  {
    collected == own + CollectedChildren(children[..j], includeAll, groupFilter, prefix)
  }

  /** One more subproject: its tasks follow, below its own prefix. */
  lemma CollectedChildrenStep(collected: seq<TaskInfo>, own: seq<TaskInfo>, children: seq<GradleProject>, j: nat,
                              includeAll: bool, groupFilter: Option<string>, prefix: string, next: seq<TaskInfo>)
    requires j < |children| && ChildrenCollected(collected, own, children, j, includeAll, groupFilter, prefix)
    requires next == collected + Collected(children[j], includeAll, groupFilter, TaskPath(prefix, children[j].name))
    ensures ChildrenCollected(next, own, children, j + 1, includeAll, groupFilter, prefix)
  {
    assert children[..j + 1][..j] == children[..j];
  }

  /** `collectTasks`: appends the tasks of `project` and of its subprojects to `tasks`. */
  method CollectTasks(project: GradleProject, tasks: seq<TaskInfo>, includeAll: bool, groupFilter: Option<string>,
                      prefix: string) returns (collected: seq<TaskInfo>)
    ensures collected == tasks + Collected(project, includeAll, groupFilter, prefix)
    decreases project
  {
    collected := tasks;
    for i := 0 to |project.tasks|
      invariant OwnCollected(collected, tasks, project.tasks, i, includeAll, groupFilter, prefix)
    {
      var task := project.tasks[i];
      OwnTasksStep(collected, tasks, project.tasks, i, includeAll, groupFilter, prefix);
      var taskPath := if prefix == "" then task.name else prefix + ":" + task.name;
      if groupFilter.Some? && groupFilter.value != "" {
        if task.group.None? || !EqualsIgnoreCase(task.group.value, groupFilter.value) {
          continue;
        }
      }
      if !includeAll && !task.isPublic {
        continue;
      }
      collected := collected + [TaskInfo(taskPath, task.group, task.description, task.isPublic)];
    }
    ghost var own := collected;
    for j := 0 to |project.children|
      invariant ChildrenCollected(collected, own, project.children, j, includeAll, groupFilter, prefix)
    {
      var subproject := project.children[j];
      var subPrefix := if prefix == "" then subproject.name else prefix + ":" + subproject.name;
      var next := CollectTasks(subproject, collected, includeAll, groupFilter, subPrefix);
      CollectedChildrenStep(collected, own, project.children, j, includeAll, groupFilter, prefix, next);
      collected := next;
    }
    CollectedWhole(collected, tasks, own, project, includeAll, groupFilter, prefix);
  }

  /** Both loops done: `collected` holds `tasks` followed by everything collected for the project. */
  lemma CollectedWhole(collected: seq<TaskInfo>, tasks: seq<TaskInfo>, own: seq<TaskInfo>, project: GradleProject,
                       includeAll: bool, groupFilter: Option<string>, prefix: string)
    requires OwnCollected(own, tasks, project.tasks, |project.tasks|, includeAll, groupFilter, prefix)
    requires ChildrenCollected(collected, own, project.children, |project.children|, includeAll, groupFilter, prefix)
    ensures collected == tasks + Collected(project, includeAll, groupFilter, prefix)
  {
    assert project.tasks[..|project.tasks|] == project.tasks;
    assert project.children[..|project.children|] == project.children;
  }

  /** Every collected task passes the group filter and the visibility filter. */
  lemma {:induction false} CollectedKept(project: GradleProject, includeAll: bool, groupFilter: Option<string>, prefix: string)
    ensures forall t | t in Collected(project, includeAll, groupFilter, prefix) :: Kept(t.group, t.isPublic, includeAll, groupFilter)
    decreases project
  {
    OwnTasksKept(project.tasks, includeAll, groupFilter, prefix);
    CollectedChildrenKept(project.children, includeAll, groupFilter, prefix);
  }

  lemma {:induction false} CollectedChildrenKept(children: seq<GradleProject>, includeAll: bool, groupFilter: Option<string>, prefix: string)
    ensures forall t | t in CollectedChildren(children, includeAll, groupFilter, prefix) :: Kept(t.group, t.isPublic, includeAll, groupFilter)
    decreases children
  {
    if children != [] {
      var child := children[|children| - 1];
      CollectedChildrenKept(children[..|children| - 1], includeAll, groupFilter, prefix);
      CollectedKept(child, includeAll, groupFilter, TaskPath(prefix, child.name));
    }
  }

  lemma {:induction false} OwnTasksKept(tasks: seq<GradleTask>, includeAll: bool, groupFilter: Option<string>, prefix: string)
    ensures forall t | t in OwnTasks(tasks, includeAll, groupFilter, prefix) :: Kept(t.group, t.isPublic, includeAll, groupFilter)
  {
    if tasks != [] {
      OwnTasksKept(tasks[..|tasks| - 1], includeAll, groupFilter, prefix);
    }
  }

  /** The tasks of `listed` that pass the filters, in order. */
  function Select(listed: seq<TaskInfo>, includeAll: bool, groupFilter: Option<string>): seq<TaskInfo> {
    if listed == [] then []
    else
      var t := listed[|listed| - 1];
      Select(listed[..|listed| - 1], includeAll, groupFilter) +
      (if Kept(t.group, t.isPublic, includeAll, groupFilter) then [t] else [])
  }

  lemma {:induction false} SelectConcat(a: seq<TaskInfo>, b: seq<TaskInfo>, includeAll: bool, groupFilter: Option<string>)
    ensures Select(a + b, includeAll, groupFilter) == Select(a, includeAll, groupFilter) + Select(b, includeAll, groupFilter)
  {
    if b == [] {
      assert a + b == a;
    } else {
      assert (a + b)[..|a + b| - 1] == a + b[..|b| - 1];
      SelectConcat(a, b[..|b| - 1], includeAll, groupFilter);
    }
  }

  /** The unfiltered listing: every task of the tree, visible or not. */
  function AllTasks(project: GradleProject, prefix: string): seq<TaskInfo> {
    Collected(project, true, None, prefix)
  }

  /**
   * Filtering while collecting is the same as collecting everything and
   * filtering afterwards: the filters drop tasks but never reorder them.
   */
  lemma {:induction false} CollectedIsFiltered(project: GradleProject, includeAll: bool, groupFilter: Option<string>, prefix: string)
    ensures Collected(project, includeAll, groupFilter, prefix) == Select(AllTasks(project, prefix), includeAll, groupFilter)
    decreases project
  {
    OwnTasksFiltered(project.tasks, includeAll, groupFilter, prefix);
    CollectedChildrenFiltered(project.children, includeAll, groupFilter, prefix);
    SelectConcat(OwnTasks(project.tasks, true, None, prefix), CollectedChildren(project.children, true, None, prefix),
                 includeAll, groupFilter);
  }

  lemma {:induction false} CollectedChildrenFiltered(children: seq<GradleProject>, includeAll: bool, groupFilter: Option<string>, prefix: string)
    ensures CollectedChildren(children, includeAll, groupFilter, prefix) ==
            Select(CollectedChildren(children, true, None, prefix), includeAll, groupFilter)
    decreases children
  {
    if children != [] {
      var child := children[|children| - 1];
      var init := children[..|children| - 1];
      CollectedChildrenFiltered(init, includeAll, groupFilter, prefix);
      CollectedIsFiltered(child, includeAll, groupFilter, TaskPath(prefix, child.name));
      SelectConcat(CollectedChildren(init, true, None, prefix), AllTasks(child, TaskPath(prefix, child.name)),
                   includeAll, groupFilter);
    }
  }

  lemma {:induction false} OwnTasksFiltered(tasks: seq<GradleTask>, includeAll: bool, groupFilter: Option<string>, prefix: string)
    ensures OwnTasks(tasks, includeAll, groupFilter, prefix) == Select(OwnTasks(tasks, true, None, prefix), includeAll, groupFilter)
  {
    if tasks != [] {
      var init := tasks[..|tasks| - 1];
      OwnTasksFiltered(init, includeAll, groupFilter, prefix);
      var last := [Listed(tasks[|tasks| - 1], prefix)];
      assert OwnTasks(tasks, true, None, prefix) == OwnTasks(init, true, None, prefix) + last;
      SelectConcat(OwnTasks(init, true, None, prefix), last, includeAll, groupFilter);
      assert last[..0] == [];
    }
  }

  /**
   * Pre-order: the unfiltered listing opens with the project's own tasks,
   * in source order, under their paths.
   */
  lemma OwnTasksFirst(project: GradleProject, prefix: string)
    ensures |AllTasks(project, prefix)| >= |project.tasks|
    ensures forall i :: 0 <= i < |project.tasks| ==> AllTasks(project, prefix)[i] == Listed(project.tasks[i], prefix)
  {
    OwnTasksAll(project.tasks, prefix);
  }

  lemma {:induction false} OwnTasksAll(tasks: seq<GradleTask>, prefix: string)
    ensures |OwnTasks(tasks, true, None, prefix)| == |tasks|
    ensures forall i :: 0 <= i < |tasks| ==> OwnTasks(tasks, true, None, prefix)[i] == Listed(tasks[i], prefix)
  {
    if tasks != [] {
      OwnTasksAll(tasks[..|tasks| - 1], prefix);
    }
  }

  /** Below a non-empty prefix, every collected path starts with the prefix and a colon. */
  lemma {:induction false} CollectedPaths(project: GradleProject, includeAll: bool, groupFilter: Option<string>, prefix: string)
    requires prefix != ""
    ensures forall t | t in Collected(project, includeAll, groupFilter, prefix) :: StartsWith(t.name, prefix + ":")
    decreases project
  {
    OwnTasksPaths(project.tasks, includeAll, groupFilter, prefix);
    CollectedChildrenPaths(project.children, includeAll, groupFilter, prefix);
  }

  lemma {:induction false} CollectedChildrenPaths(children: seq<GradleProject>, includeAll: bool, groupFilter: Option<string>, prefix: string)
    requires prefix != ""
    ensures forall t | t in CollectedChildren(children, includeAll, groupFilter, prefix) :: StartsWith(t.name, prefix + ":")
    decreases children
  {
    if children != [] {
      var child := children[|children| - 1];
      var childPrefix := TaskPath(prefix, child.name);
      CollectedChildrenPaths(children[..|children| - 1], includeAll, groupFilter, prefix);
      CollectedPaths(child, includeAll, groupFilter, childPrefix);
      assert childPrefix + ":" == (prefix + ":") + (child.name + ":");
      ConcatEnds(prefix + ":", child.name + ":");
      forall t | t in Collected(child, includeAll, groupFilter, childPrefix)
        ensures StartsWith(t.name, prefix + ":")
      {
        StartsWithShortened(t.name, childPrefix + ":", prefix + ":");
      }
    }
  }

  lemma {:induction false} OwnTasksPaths(tasks: seq<GradleTask>, includeAll: bool, groupFilter: Option<string>, prefix: string)
    requires prefix != ""
    ensures forall t | t in OwnTasks(tasks, includeAll, groupFilter, prefix) :: StartsWith(t.name, prefix + ":")
  {
    if tasks != [] {
      OwnTasksPaths(tasks[..|tasks| - 1], includeAll, groupFilter, prefix);
      ConcatEnds(prefix + ":", tasks[|tasks| - 1].name);
    }
  }

  // ---------------------------------------------------------------------
  // getTasksViaCommand
  // ---------------------------------------------------------------------

  const TasksSuffix := " tasks"
  const DescriptionSeparator := " - "

  /** The arguments of the fallback `tasks` command: "--all" exactly when every task is wanted. */
  function FallbackArguments(includeAll: bool): (args: seq<string>)
    ensures "--all" in args <==> includeAll
    ensures |args| <= 1
  {
    if includeAll then ["--all"] else []
  }

  /** What one line of the `tasks` output is to the parser. */
  datatype TaskLineKind = GroupHeader(group: string) | Ignored | TaskEntry(name: string, description: Option<string>)

  /**
   * The tests the parser makes of a line, on its trimmed form: a group
   * header ends with " tasks" and does not start with "-"; separator and
   * empty lines are ignored; anything else is "name - description".
   */
  function KindOf(line: string): TaskLineKind {
    TrimmedKind(Trim(line))
  }

  function TrimmedKind(trimmed: string): TaskLineKind {
    if EndsWith(trimmed, TasksSuffix) && !StartsWith(trimmed, "-") then GroupHeader(RemoveAll(trimmed, TasksSuffix))
    else if StartsWith(trimmed, "-") || trimmed == "" then Ignored
    else
      var parts := SplitOnce(trimmed, DescriptionSeparator);
      if parts[0] == "" then Ignored
      else TaskEntry(Trim(parts[0]), if |parts| > 1 then Some(Trim(parts[1])) else None)
  }

  /** A task under `currentGroup` is kept when no group filter is in force or the group matches it ignoring case. */
  predicate GroupAccepted(groupFilter: Option<string>, currentGroup: Option<string>) {
    !Filtering(groupFilter) || (currentGroup.Some? && EqualsIgnoreCase(currentGroup.value, groupFilter.value))
  }

  /** What each of `lines` is to the parser. */
  function LineKinds(lines: seq<string>): (kinds: seq<TaskLineKind>)
    ensures |kinds| == |lines|
  {
    if lines == [] then [] else [KindOf(lines[0])] + LineKinds(lines[1..])
  }

  lemma {:induction false} LineKindsAt(lines: seq<string>, i: nat)
    requires i < |lines|
    ensures |LineKinds(lines)| == |lines| && LineKinds(lines)[i] == KindOf(lines[i])
  {
    var kinds := LineKinds(lines);
    assert kinds == [KindOf(lines[0])] + LineKinds(lines[1..]);
    if i > 0 {
      LineKindsAt(lines[1..], i - 1);
      assert lines[1..][i - 1] == lines[i];
      assert kinds[i] == LineKinds(lines[1..])[i - 1];
    }
  }

  /** The tasks the parser reads from lines of these kinds when the current group is `currentGroup`. */
  function ReadTasks(kinds: seq<TaskLineKind>, currentGroup: Option<string>, groupFilter: Option<string>): seq<TaskInfo>
    decreases |kinds|
  {
    if kinds == [] then []
    else
      match kinds[0]
      case GroupHeader(group) => ReadTasks(kinds[1..], Some(group), groupFilter)
      case Ignored => ReadTasks(kinds[1..], currentGroup, groupFilter)
      case TaskEntry(name, description) =>
        (if GroupAccepted(groupFilter, currentGroup) then [TaskInfo(name, currentGroup, description, true)] else []) +
        ReadTasks(kinds[1..], currentGroup, groupFilter)
  }

  /** The tasks the parser reads from `lines`, starting with no current group. */
  function ParsedTasks(lines: seq<string>, groupFilter: Option<string>): seq<TaskInfo> {
    ReadTasks(LineKinds(lines), None, groupFilter)
  }

  /** The tests of one line, in the parser's order. */
  method ReadTaskLine(line: string) returns (kind: TaskLineKind)
    ensures kind == KindOf(line)
  {
    var trimmed := Trim(line);
    if EndsWith(trimmed, TasksSuffix) && !StartsWith(trimmed, "-") {
      return GroupHeader(RemoveAll(trimmed, TasksSuffix));
    }
    if StartsWith(trimmed, "-") || trimmed == "" {
      return Ignored;
    }
    var parts := SplitOnce(trimmed, DescriptionSeparator);
    if |parts| > 0 && parts[0] != "" {
      var taskName := Trim(parts[0]);
      var description := if |parts| > 1 then Some(Trim(parts[1])) else None;
      return TaskEntry(taskName, description);
    }
    return Ignored;
  }

  /** After `i` lines the parser holds `tasks` and `currentGroup`, and the rest of the lines yields the remainder. */
  predicate TasksScanned(kinds: seq<TaskLineKind>, i: nat, tasks: seq<TaskInfo>, currentGroup: Option<string>, groupFilter: Option<string>)
    requires i <= |kinds|
  {
    tasks + ReadTasks(kinds[i..], currentGroup, groupFilter) == ReadTasks(kinds, None, groupFilter)
  }

  /** One step of the parser: how the line at `i` carries `TasksScanned` over to the next line. */
  lemma TasksScanStep(kinds: seq<TaskLineKind>, i: nat, tasks: seq<TaskInfo>, currentGroup: Option<string>, groupFilter: Option<string>)
    requires i < |kinds| && TasksScanned(kinds, i, tasks, currentGroup, groupFilter)
    ensures match kinds[i]
            case GroupHeader(group) => TasksScanned(kinds, i + 1, tasks, Some(group), groupFilter)
            case Ignored => TasksScanned(kinds, i + 1, tasks, currentGroup, groupFilter)
            case TaskEntry(name, description) =>
              if GroupAccepted(groupFilter, currentGroup)
              then TasksScanned(kinds, i + 1, tasks + [TaskInfo(name, currentGroup, description, true)], currentGroup, groupFilter)
              else TasksScanned(kinds, i + 1, tasks, currentGroup, groupFilter)
  {
    assert kinds[i..][0] == kinds[i];
    assert kinds[i..][1..] == kinds[i + 1..];
    match kinds[i]
    case TaskEntry(name, description) =>
      var t := [TaskInfo(name, currentGroup, description, true)];
      assert (tasks + t) + ReadTasks(kinds[i + 1..], currentGroup, groupFilter)
          == tasks + (t + ReadTasks(kinds[i + 1..], currentGroup, groupFilter));
    case _ =>
  }

  /** The parsing loop of `getTasksViaCommand`, with the current group carried from line to line. */
  method ParseTaskLines(lines: seq<string>, groupFilter: Option<string>) returns (tasks: seq<TaskInfo>)
    ensures tasks == ParsedTasks(lines, groupFilter)
  {
    ghost var kinds := LineKinds(lines);
    tasks := [];
    var currentGroup: Option<string> := None;
    for i := 0 to |lines|
      invariant TasksScanned(kinds, i, tasks, currentGroup, groupFilter)
    {
      LineKindsAt(lines, i);
      TasksScanStep(kinds, i, tasks, currentGroup, groupFilter);
      var kind := ReadTaskLine(lines[i]);
      match kind {
        case GroupHeader(group) =>
          currentGroup := Some(group);
        case Ignored =>
        case TaskEntry(taskName, description) =>
          if groupFilter.None? || groupFilter.value == "" ||
             (currentGroup.Some? && EqualsIgnoreCase(currentGroup.value, groupFilter.value)) {
            tasks := tasks + [TaskInfo(taskName, currentGroup, description, true)];
          }
      }
    }
    if lines != [] {
      LineKindsAt(lines, 0);
    }
    assert kinds[|kinds|..] == [];
  }

  /** Every task read from the output is public and belongs to a group the filter accepts. */
  lemma ParsedTasksAccepted(lines: seq<string>, groupFilter: Option<string>)
    ensures forall t | t in ParsedTasks(lines, groupFilter) :: t.isPublic && GroupAccepted(groupFilter, t.group)
  {
    ReadTasksAccepted(LineKinds(lines), None, groupFilter);
  }

  lemma {:induction false} ReadTasksAccepted(kinds: seq<TaskLineKind>, currentGroup: Option<string>, groupFilter: Option<string>)
    ensures forall t | t in ReadTasks(kinds, currentGroup, groupFilter) :: t.isPublic && GroupAccepted(groupFilter, t.group)
    decreases |kinds|
  {
    if kinds != [] {
      match kinds[0]
      case GroupHeader(group) => ReadTasksAccepted(kinds[1..], Some(group), groupFilter);
      case Ignored => ReadTasksAccepted(kinds[1..], currentGroup, groupFilter);
      case TaskEntry(_, _) => ReadTasksAccepted(kinds[1..], currentGroup, groupFilter);
    }
  }

  // The `tasks` report as Gradle writes it, and the parser reading it back.

  /** A task line of the report: a name, and a description after " - " when there is one. */
  datatype ReportEntry = ReportEntry(name: string, description: Option<string>)

  /** One group of the report: its heading and its task lines. */
  datatype GroupListing = GroupListing(group: string, entries: seq<ReportEntry>)

  function Dashes(n: nat): (r: string)
    ensures |r| == n && forall i :: 0 <= i < n ==> r[i] == '-'
  {
    seq(n, _ => '-')
  }

  function EntryLine(e: ReportEntry): string {
    match e.description
    case None => e.name
    case Some(d) => e.name + DescriptionSeparator + d
  }

  function EntryLines(entries: seq<ReportEntry>): seq<string> {
    if entries == [] then [] else [EntryLine(entries[0])] + EntryLines(entries[1..])
  }

  /** The lines of a report: each group's heading, its underline, then its task lines. */
  function ReportLines(groups: seq<GroupListing>): seq<string> {
    if groups == [] then []
    else
      [groups[0].group + TasksSuffix, Dashes(|groups[0].group| + |TasksSuffix|)] +
      EntryLines(groups[0].entries) + ReportLines(groups[1..])
  }

  /**
   * A heading the parser reads back: it starts with a visible character
   * other than '-', and its only " tasks" is the final one.
   */
  predicate ReadableGroup(group: string) {
    && group != [] && !IsTrimmable(group[0]) && group[0] != '-'
    && IndexOf(group + TasksSuffix, TasksSuffix) == Some(|group|)
  }

  /**
   * A task line the parser reads back: the name and the description have
   * no surrounding blanks, the name does not start with '-', the first
   * " - " is the one after the name, and the line does not end with " tasks".
   */
  predicate ReadableEntry(e: ReportEntry) {
    && e.name != [] && !IsTrimmable(e.name[0]) && !IsTrimmable(e.name[|e.name| - 1]) && e.name[0] != '-'
    && !EndsWith(EntryLine(e), TasksSuffix)
    && match e.description
       case None => !Contains(e.name, DescriptionSeparator)
       case Some(d) =>
         && d != [] && !IsTrimmable(d[0]) && !IsTrimmable(d[|d| - 1])
         && IndexOf(EntryLine(e), DescriptionSeparator) == Some(|e.name|)
  }

  predicate ReadableReport(groups: seq<GroupListing>) {
    forall i :: 0 <= i < |groups| ==>
      ReadableGroup(groups[i].group) && forall j :: 0 <= j < |groups[i].entries| ==> ReadableEntry(groups[i].entries[j])
  }

  /** `s` does not end with `e` when they differ at some position of `e`. */
  lemma DiffersFromEnd(s: string, e: string, i: nat)
    requires |e| <= |s| && i < |e| && s[|s| - |e| + i] != e[i]
    ensures !EndsWith(s, e)
  {
    assert s[|s| - |e|..][i] == s[|s| - |e| + i];
  }

  /** `s` starts with the one-character string `[c]` exactly when its first character is `c`. */
  lemma StartsWithChar(s: string, c: char)
    requires s != []
    ensures StartsWith(s, [c]) <==> s[0] == c
  {
    assert s[..1] == [s[0]];
  }

  /** A heading line reads as its group. */
  lemma HeadingKind(group: string)
    requires ReadableGroup(group)
    ensures KindOf(group + TasksSuffix) == GroupHeader(group)
  {
    var line := group + TasksSuffix;
    TrimNoop(line);
    ConcatEnds(group, TasksSuffix);
    StartsWithChar(line, '-');
    RemoveTrailingOccurrence(group, TasksSuffix);
  }

  /** An underline is ignored. */
  lemma UnderlineKind(n: nat)
    requires n > |TasksSuffix|
    ensures KindOf(Dashes(n)) == Ignored
  {
    var line := Dashes(n);
    TrimNoop(line);
    DiffersFromEnd(line, TasksSuffix, 0);
    StartsWithChar(line, '-');
    assert TrimmedKind(line) == Ignored;
  }

  /** The heading and the underline of a group. */
  lemma HeadingLinesKinds(group: string)
    requires ReadableGroup(group)
    ensures LineKinds([group + TasksSuffix, Dashes(|group| + |TasksSuffix|)]) == [GroupHeader(group), Ignored]
  {
    var lines := [group + TasksSuffix, Dashes(|group| + |TasksSuffix|)];
    HeadingKind(group);
    UnderlineKind(|group| + |TasksSuffix|);
    assert lines[1..] == [Dashes(|group| + |TasksSuffix|)];
    assert lines[1..][1..] == [];
  }

  /** A task line without a description reads as its name. */
  lemma NameOnlyKind(name: string)
    requires ReadableEntry(ReportEntry(name, None))
    ensures KindOf(name) == TaskEntry(name, None)
  {
    TrimNoop(name);
    StartsWithChar(name, '-');
    assert SplitOnce(name, DescriptionSeparator) == [name];
  }

  /** A task line with a description reads as its name and description. */
  lemma DescribedKind(name: string, d: string)
    requires ReadableEntry(ReportEntry(name, Some(d)))
    ensures KindOf(name + DescriptionSeparator + d) == TaskEntry(name, Some(d))
  {
    var line := name + DescriptionSeparator + d;
    TrimNoop(line);
    TrimNoop(name);
    TrimNoop(d);
    StartsWithChar(line, '-');
    assert line[..|name|] == name;
    assert line[|name| + |DescriptionSeparator|..] == d;
    assert SplitOnce(line, DescriptionSeparator) == [name, d];
  }

  /** A task line reads as its name and description. */
  lemma EntryKind(e: ReportEntry)
    requires ReadableEntry(e)
    ensures KindOf(EntryLine(e)) == TaskEntry(e.name, e.description)
  {
    match e.description
    case None => NameOnlyKind(e.name);
    case Some(d) => DescribedKind(e.name, d);
  }

  /** The kinds of a report's lines. */
  function EntryKinds(entries: seq<ReportEntry>): seq<TaskLineKind> {
    if entries == [] then [] else [TaskEntry(entries[0].name, entries[0].description)] + EntryKinds(entries[1..])
  }

  function ReportKinds(groups: seq<GroupListing>): seq<TaskLineKind> {
    if groups == [] then []
    else [GroupHeader(groups[0].group), Ignored] + EntryKinds(groups[0].entries) + ReportKinds(groups[1..])
  }

  lemma {:induction false} LineKindsConcat(a: seq<string>, b: seq<string>)
    ensures LineKinds(a + b) == LineKinds(a) + LineKinds(b)
  {
    if a == [] {
      assert a + b == b;
    } else {
      assert (a + b)[0] == a[0];
      assert (a + b)[1..] == a[1..] + b;
      LineKindsConcat(a[1..], b);
    }
  }

  lemma {:induction false} EntryLinesKinds(entries: seq<ReportEntry>)
    requires forall j :: 0 <= j < |entries| ==> ReadableEntry(entries[j])
    ensures LineKinds(EntryLines(entries)) == EntryKinds(entries)
  {
    if entries != [] {
      EntryKind(entries[0]);
      EntryLinesKinds(entries[1..]);
      LineKindsConcat([EntryLine(entries[0])], EntryLines(entries[1..]));
    }
  }

  lemma {:induction false} ReportLinesKinds(groups: seq<GroupListing>)
    requires ReadableReport(groups)
    ensures LineKinds(ReportLines(groups)) == ReportKinds(groups)
  {
    if groups != [] {
      var g := groups[0];
      HeadingLinesKinds(g.group);
      EntryLinesKinds(g.entries);
      ReportLinesKinds(groups[1..]);
      var heading := [g.group + TasksSuffix, Dashes(|g.group| + |TasksSuffix|)];
      LineKindsConcat(heading, EntryLines(g.entries));
      LineKindsConcat(heading + EntryLines(g.entries), ReportLines(groups[1..]));
    }
  }

  /** The tasks a report lists, each under its group, for the groups the filter accepts. */
  function GroupTasks(group: string, entries: seq<ReportEntry>): seq<TaskInfo> {
    if entries == [] then []
    else [TaskInfo(entries[0].name, Some(group), entries[0].description, true)] + GroupTasks(group, entries[1..])
  }

  function ReportTasks(groups: seq<GroupListing>, groupFilter: Option<string>): seq<TaskInfo> {
    if groups == [] then []
    else
      (if GroupAccepted(groupFilter, Some(groups[0].group)) then GroupTasks(groups[0].group, groups[0].entries) else []) +
      ReportTasks(groups[1..], groupFilter)
  }

  lemma {:induction false} ReadEntryKinds(group: string, entries: seq<ReportEntry>, rest: seq<TaskLineKind>, groupFilter: Option<string>)
    ensures ReadTasks(EntryKinds(entries) + rest, Some(group), groupFilter) ==
            (if GroupAccepted(groupFilter, Some(group)) then GroupTasks(group, entries) else []) +
            ReadTasks(rest, Some(group), groupFilter)
  {
    if entries == [] {
      assert EntryKinds(entries) + rest == rest;
    } else {
      var kinds := EntryKinds(entries) + rest;
      assert kinds[0] == TaskEntry(entries[0].name, entries[0].description);
      assert kinds[1..] == EntryKinds(entries[1..]) + rest;
      ReadEntryKinds(group, entries[1..], rest, groupFilter);
    }
  }

  lemma {:induction false} ReadReportKinds(groups: seq<GroupListing>, currentGroup: Option<string>, groupFilter: Option<string>)
    ensures ReadTasks(ReportKinds(groups), currentGroup, groupFilter) == ReportTasks(groups, groupFilter)
  {
    if groups != [] {
      var g := groups[0];
      var rest := EntryKinds(g.entries) + ReportKinds(groups[1..]);
      var kinds := ReportKinds(groups);
      assert kinds == [GroupHeader(g.group)] + ([Ignored] + rest);
      assert kinds[1..] == [Ignored] + rest;
      assert ([Ignored] + rest)[1..] == rest;
      ReadEntryKinds(g.group, g.entries, ReportKinds(groups[1..]), groupFilter);
      ReadReportKinds(groups[1..], Some(g.group), groupFilter);
    }
  }

  /**
   * The parser reads back every report Gradle writes with readable headings
   * and task lines: each task under its group, in order, public, for the
   * groups the filter accepts.
   */
  lemma ParseReport(groups: seq<GroupListing>, groupFilter: Option<string>)
    requires ReadableReport(groups)
    ensures ParsedTasks(ReportLines(groups), groupFilter) == ReportTasks(groups, groupFilter)
  {
    ReportLinesKinds(groups);
    ReadReportKinds(groups, None, groupFilter);
  }

  /** A task line whose description ends with " tasks" is taken for a group heading. */
  lemma DescriptionEndingInTasksReadAsHeading(e: ReportEntry)
    requires e.name != [] && !IsTrimmable(e.name[0]) && e.name[0] != '-'
    requires e.description.Some? && EndsWith(e.description.value, TasksSuffix)
    ensures KindOf(EntryLine(e)).GroupHeader?
  {
    var line := EntryLine(e);
    var d := e.description.value;
    TrimNoop(line);
    assert line[|line| - |TasksSuffix|..] == d[|d| - |TasksSuffix|..];
    StartsWithChar(line, '-');
    assert TrimmedKind(line).GroupHeader?;
  }

  // ---------------------------------------------------------------------
  // The response of `handle`
  // ---------------------------------------------------------------------

  const OtherGroup := "Other"
  const Banner := "Available Gradle Tasks\n=====================\n\n"
  const NoTasksLine := "No tasks found matching the criteria.\n"
  const Tip := "\nTip: Use includeAll=true to see all tasks including internal ones.\n"
  const NameColumn := 30
  /** What an omitted `includeAll` argument means. */
  const DefaultIncludeAll := false

  /** The group a task is listed under: its own, or "Other" when it has none. */
  function GroupKey(t: TaskInfo): string {
    if t.group.Some? then t.group.value else OtherGroup
  }

  /** A task is listed under "Other" exactly when it has no group or its group is "Other". */
  lemma OtherGroupRule(t: TaskInfo)
    ensures GroupKey(t) == OtherGroup <==> t.group.None? || t.group == Some(OtherGroup)
  {
  }

  /** The tasks listed under `group`, in their order in `tasks`. */
  function Members(tasks: seq<TaskInfo>, group: string): seq<TaskInfo> {
    if tasks == [] then []
    else
      var t := tasks[|tasks| - 1];
      Members(tasks[..|tasks| - 1], group) + (if GroupKey(t) == group then [t] else [])
  }

  /** The groups of `tasks`, each once, in order of first appearance. */
  function GroupKeys(tasks: seq<TaskInfo>): seq<string> {
    if tasks == [] then []
    else
      var keys := GroupKeys(tasks[..|tasks| - 1]);
      var key := GroupKey(tasks[|tasks| - 1]);
      if key in keys then keys else keys + [key]
  }

  predicate Distinct<T(==)>(s: seq<T>) {
    forall i, j :: 0 <= i < j < |s| ==> s[i] != s[j]
  }

  /**
   * The grouping is a partition: the keys are distinct (this lemma), every
   * task is a member of its own group (`KeysCover`) and of no other
   * (`MembersBelong`), and every key has a member (`KeysHaveMembers`).
   */
  lemma {:induction false} KeysDistinct(tasks: seq<TaskInfo>)
    ensures Distinct(GroupKeys(tasks))
  {
    if tasks != [] {
      KeysDistinct(tasks[..|tasks| - 1]);
    }
  }

  /** Every task's group is a key, and the task is a member of it. */
  lemma {:induction false} KeysCover(tasks: seq<TaskInfo>)
    ensures forall t | t in tasks :: GroupKey(t) in GroupKeys(tasks) && t in Members(tasks, GroupKey(t))
  {
    if tasks != [] {
      var init, last := tasks[..|tasks| - 1], tasks[|tasks| - 1];
      KeysCover(init);
      forall t | t in tasks ensures GroupKey(t) in GroupKeys(tasks) && t in Members(tasks, GroupKey(t)) {
        var i :| 0 <= i < |tasks| && tasks[i] == t;
        if i < |init| {
          assert init[i] == t;
          assert Members(init, GroupKey(t)) <= Members(tasks, GroupKey(t));
        }
      }
    }
  }

  /** Every key has a member. */
  lemma {:induction false} KeysHaveMembers(tasks: seq<TaskInfo>)
    ensures forall g | g in GroupKeys(tasks) :: Members(tasks, g) != []
  {
    if tasks != [] {
      var init := tasks[..|tasks| - 1];
      KeysHaveMembers(init);
      forall g | g in GroupKeys(tasks) ensures Members(tasks, g) != [] {
        if g in GroupKeys(init) {
          assert Members(init, g) != [];
        }
      }
    }
  }

  /** A member of a group is a collected task whose group is that one, so no task is a member of two groups. */
  lemma {:induction false} MembersBelong(tasks: seq<TaskInfo>)
    ensures forall g, t | t in Members(tasks, g) :: t in tasks && GroupKey(t) == g
  {
    if tasks != [] {
      var init := tasks[..|tasks| - 1];
      MembersBelong(init);
      forall g, t | t in Members(tasks, g) ensures t in tasks && GroupKey(t) == g {
        if t in Members(init, g) {
          assert t in init;
        }
      }
    }
  }

  /** `a.compareTo(b) <= 0`, or `a.compareToIgnoreCase(b) <= 0` when `caseless`. */
  predicate LexLeq(a: string, b: string, caseless: bool)
    decreases |a|
  {
    if a == [] then true
    else if b == [] then false
    else
      var x, y := Fold(a[0], caseless), Fold(b[0], caseless);
      if x != y then x < y else LexLeq(a[1..], b[1..], caseless)
  }

  function Fold(c: char, caseless: bool): char {
    if caseless then ToLower(c) else c
  }

  /** Any two strings are ordered one way or the other. */
  lemma {:induction false} LexLeqTotal(a: string, b: string, caseless: bool)
    ensures LexLeq(a, b, caseless) || LexLeq(b, a, caseless)
    decreases |a|
  {
    if a != [] && b != [] && Fold(a[0], caseless) == Fold(b[0], caseless) {
      LexLeqTotal(a[1..], b[1..], caseless);
    }
  }

  /** `x` inserted into `s` after every element whose key does not exceed its own. */
  function InsertSorted<T>(x: T, s: seq<T>, key: T -> string, caseless: bool): (r: seq<T>)
    ensures |r| == |s| + 1
  {
    if s == [] then [x]
    else if LexLeq(key(s[|s| - 1]), key(x), caseless) then s + [x]
    else InsertSorted(x, s[..|s| - 1], key, caseless) + [s[|s| - 1]]
  }

  /** `List.sort` with the comparator on `key`: a stable sort. */
  function SortedBy<T>(s: seq<T>, key: T -> string, caseless: bool): (r: seq<T>)
    ensures |r| == |s|
  {
    if s == [] then [] else InsertSorted(s[|s| - 1], SortedBy(s[..|s| - 1], key, caseless), key, caseless)
  }

  predicate Ordered<T>(s: seq<T>, key: T -> string, caseless: bool) {
    forall i :: 0 < i < |s| ==> LexLeq(key(s[i - 1]), key(s[i]), caseless)
  }

  lemma OrderedAppend<T>(s: seq<T>, y: T, key: T -> string, caseless: bool)
    requires Ordered(s, key, caseless)
    requires s != [] ==> LexLeq(key(s[|s| - 1]), key(y), caseless)
    ensures Ordered(s + [y], key, caseless)
  {
    var r := s + [y];
    forall i | 0 < i < |r| ensures LexLeq(key(r[i - 1]), key(r[i]), caseless) {
      if i < |s| {
        assert r[i - 1] == s[i - 1] && r[i] == s[i];
      }
    }
  }

  lemma {:induction false} InsertSortedOrdered<T>(x: T, s: seq<T>, key: T -> string, caseless: bool)
    requires Ordered(s, key, caseless)
    ensures Ordered(InsertSorted(x, s, key, caseless), key, caseless)
  {
    if s == [] {
    } else if LexLeq(key(s[|s| - 1]), key(x), caseless) {
      OrderedAppend(s, x, key, caseless);
    } else {
      var init, last := s[..|s| - 1], s[|s| - 1];
      assert Ordered(init, key, caseless) by {
        forall i | 0 < i < |init| ensures LexLeq(key(init[i - 1]), key(init[i]), caseless) {
          assert init[i - 1] == s[i - 1] && init[i] == s[i];
        }
      }
      InsertSortedOrdered(x, init, key, caseless);
      LexLeqTotal(key(last), key(x), caseless);
      var r := InsertSorted(x, init, key, caseless);
      LastOfInsert(x, init, key, caseless);
      if init != [] {
        assert LexLeq(key(s[|s| - 2]), key(s[|s| - 1]), caseless);
      }
      OrderedAppend(r, last, key, caseless);
    }
  }

  lemma {:induction false} InsertSortedPermutes<T>(x: T, s: seq<T>, key: T -> string, caseless: bool)
    ensures multiset(InsertSorted(x, s, key, caseless)) == multiset(s) + multiset{x}
  {
    if s != [] && !LexLeq(key(s[|s| - 1]), key(x), caseless) {
      var init := s[..|s| - 1];
      InsertSortedPermutes(x, init, key, caseless);
      assert s == init + [s[|s| - 1]];
    }
  }

  lemma {:induction false} LastOfInsert<T>(x: T, s: seq<T>, key: T -> string, caseless: bool)
    ensures var r := InsertSorted(x, s, key, caseless);
            r[|r| - 1] == x || (s != [] && r[|r| - 1] == s[|s| - 1])
  {
  }

  /** The sort orders by the key and keeps every element as often as it occurs. */
  lemma {:induction false} SortedByContract<T>(s: seq<T>, key: T -> string, caseless: bool)
    ensures Ordered(SortedBy(s, key, caseless), key, caseless)
    ensures multiset(SortedBy(s, key, caseless)) == multiset(s)
  {
    if s != [] {
      var init := s[..|s| - 1];
      SortedByContract(init, key, caseless);
      InsertSortedOrdered(s[|s| - 1], SortedBy(init, key, caseless), key, caseless);
      InsertSortedPermutes(s[|s| - 1], SortedBy(init, key, caseless), key, caseless);
      assert s == init + [s[|s| - 1]];
    }
  }

  /** The sort key of a group: the group itself. */
  function GroupName(group: string): string {
    group
  }

  /** The sort key of a task: its name. */
  function TaskName(t: TaskInfo): string {
    t.name
  }

  /** The groups in the order of the response: sorted ignoring case. */
  function SortedGroups(tasks: seq<TaskInfo>): seq<string> {
    SortedBy(GroupKeys(tasks), GroupName, true)
  }

  /** The tasks of `group` in the order of the response: sorted by name. */
  function SortedMembers(tasks: seq<TaskInfo>, group: string): seq<TaskInfo> {
    SortedBy(Members(tasks, group), TaskName, false)
  }

  /**
   * The sections come in case-insensitive order of their groups, each group
   * heads exactly one section, and every listed group has tasks.
   */
  lemma GroupsListedOnce(tasks: seq<TaskInfo>)
    ensures Ordered(SortedGroups(tasks), GroupName, true)
    ensures forall t | t in tasks :: multiset(SortedGroups(tasks))[GroupKey(t)] == 1
    ensures forall g | g in SortedGroups(tasks) :: SortedMembers(tasks, g) != []
  {
    var keys := GroupKeys(tasks);
    KeysDistinct(tasks);
    KeysCover(tasks);
    KeysHaveMembers(tasks);
    SortedByContract(keys, GroupName, true);
    DistinctOnce(keys);
    forall g | g in SortedGroups(tasks) ensures SortedMembers(tasks, g) != [] {
      assert g in multiset(keys);
      assert |SortedMembers(tasks, g)| == |Members(tasks, g)|;
    }
  }

  /**
   * A group's section lists its tasks by name, and exactly the tasks of that
   * group, each as often as it was collected.
   */
  lemma MembersListed(tasks: seq<TaskInfo>, group: string)
    ensures Ordered(SortedMembers(tasks, group), TaskName, false)
    ensures multiset(SortedMembers(tasks, group)) == multiset(Members(tasks, group))
    ensures forall t :: t in SortedMembers(tasks, group) <==> t in tasks && GroupKey(t) == group
  {
    var members := Members(tasks, group);
    SortedByContract(members, TaskName, false);
    MembersExactly(tasks, group);
    forall t ensures t in SortedMembers(tasks, group) <==> t in members {
      assert t in SortedMembers(tasks, group) <==> t in multiset(SortedMembers(tasks, group));
    }
  }

  /** A group's members are exactly the tasks whose key is that group. */
  lemma {:induction false} MembersExactly(tasks: seq<TaskInfo>, group: string)
    ensures forall t :: t in Members(tasks, group) <==> t in tasks && GroupKey(t) == group
  {
    if tasks != [] {
      var init, last := tasks[..|tasks| - 1], tasks[|tasks| - 1];
      MembersExactly(init, group);
      assert tasks == init + [last];
    }
  }

  /** In a sequence without repetitions every element occurs once. */
  lemma {:induction false} DistinctOnce<T>(s: seq<T>)
    requires Distinct(s)
    ensures forall x | x in s :: multiset(s)[x] == 1
  {
    if s != [] {
      var init, last := s[..|s| - 1], s[|s| - 1];
      DistinctOnce(init);
      assert s == init + [last];
      assert last !in init by {
        forall i | 0 <= i < |init| ensures init[i] != last {
          assert init[i] == s[i];
        }
      }
      forall x | x in s ensures multiset(s)[x] == 1 {
        if x != last {
          assert x in init by {
            var i :| 0 <= i < |s| && s[i] == x;
            assert init[i] == x;
          }
        }
      }
    }
  }

  /** `name` left-justified in a column `width` wide, as `%-30s` prints it. */
  function PadRight(name: string, width: nat): (r: string)
    ensures |r| == if |name| < width then width else |name|
    ensures r[..|name|] == name
    ensures forall i :: |name| <= i < |r| ==> r[i] == ' '
  {
    if |name| < width then name + seq(width - |name|, _ => ' ') else name
  }

  /** One task line of the response: the name in its column, then the description, if any. */
  function Row(t: TaskInfo): string {
    PadRight(t.name, NameColumn) + " " + t.description.GetOr("") + "\n"
  }

  function Rows(tasks: seq<TaskInfo>): string {
    if tasks == [] then "" else Rows(tasks[..|tasks| - 1]) + Row(tasks[|tasks| - 1])
  }

  /** A group's heading, underlined as long as the heading itself. */
  function Heading(group: string): string {
    group + TasksSuffix + "\n" + Dashes(|group| + |TasksSuffix|) + "\n"
  }

  function Section(tasks: seq<TaskInfo>, group: string): string {
    Heading(group) + Rows(SortedMembers(tasks, group)) + "\n"
  }

  function Sections(tasks: seq<TaskInfo>, groups: seq<string>): string {
    if groups == [] then "" else Sections(tasks, groups[..|groups| - 1]) + Section(tasks, groups[|groups| - 1])
  }

  function Total(tasks: seq<TaskInfo>): string {
    "\nTotal tasks: " + IntToString(|tasks|) + "\n"
  }

  /** The text `handle` answers with for the listed `tasks`. */
  function TasksResponse(tasks: seq<TaskInfo>, includeAll: bool): string {
    Banner +
    if tasks == [] then NoTasksLine
    else Sections(tasks, SortedGroups(tasks)) + Total(tasks) + (if includeAll then "" else Tip)
  }

  /** The response so far: what came before, then the sections of the first `k` groups. */
  predicate SectionsWritten(start: string, tasks: seq<TaskInfo>, groups: seq<string>, k: nat, response: string)
    requires k <= |groups|
  {
    response == start + Sections(tasks, groups[..k])
  }

  lemma SectionsStep(start: string, tasks: seq<TaskInfo>, groups: seq<string>, k: nat, response: string)
    requires k < |groups| && SectionsWritten(start, tasks, groups, k, response)
    ensures SectionsWritten(start, tasks, groups, k + 1, response + Section(tasks, groups[k]))
  {
    assert groups[..k + 1][..k] == groups[..k];
  }

  /** The section so far: what came before, then the rows of the first `m` tasks. */
  predicate RowsWritten(start: string, tasks: seq<TaskInfo>, m: nat, response: string)
    requires m <= |tasks|
  {
    response == start + Rows(tasks[..m])
  }

  lemma RowsStep(start: string, tasks: seq<TaskInfo>, m: nat, response: string)
    requires m < |tasks| && RowsWritten(start, tasks, m, response)
    ensures RowsWritten(start, tasks, m + 1, response + Row(tasks[m]))
  {
    assert tasks[..m + 1][..m] == tasks[..m];
  }

  /** A section is complete once its last row is followed by an empty line. */
  lemma SectionAppended(before: string, tasks: seq<TaskInfo>, group: string, response: string)
    requires var members := SortedMembers(tasks, group);
             RowsWritten(before + Heading(group), members, |members|, response)
    ensures response + "\n" == before + Section(tasks, group)
  {
    var members := SortedMembers(tasks, group);
    assert members[..|members|] == members;
  }

  /** The response to a non-empty listing: the sections, the total, and the tip where it applies. */
  lemma ResponseAssembled(tasks: seq<TaskInfo>, includeAll: bool, response: string)
    requires tasks != []
    requires SectionsWritten(Banner, tasks, SortedGroups(tasks), |SortedGroups(tasks)|, response)
    ensures response + Total(tasks) + (if includeAll then "" else Tip) == TasksResponse(tasks, includeAll)
  {
    var groups := SortedGroups(tasks);
    assert groups[..|groups|] == groups;
    Regroup(Banner, Sections(tasks, groups), Total(tasks), if includeAll then "" else Tip);
  }

  /** The response-building loops of `handle`. */
  method DescribeTasks(tasks: seq<TaskInfo>, includeAll: bool) returns (response: string)
    ensures response == TasksResponse(tasks, includeAll)
  {
    response := Banner;
    if tasks == [] {
      response := response + NoTasksLine;
      return;
    }
    var sortedGroups := SortedGroups(tasks);
    for k := 0 to |sortedGroups|
      invariant SectionsWritten(Banner, tasks, sortedGroups, k, response)
    {
      var group := sortedGroups[k];
      ghost var before := response;
      var heading := group + TasksSuffix + "\n" + Dashes(|group| + |TasksSuffix|) + "\n";
      assert heading == Heading(group);
      response := response + heading;
      var groupTasks := SortedMembers(tasks, group);
      for m := 0 to |groupTasks|
        invariant RowsWritten(before + heading, groupTasks, m, response)
      {
        var task := groupTasks[m];
        var row := PadRight(task.name, NameColumn) + " " + task.description.GetOr("") + "\n";
        RowsStep(before + heading, groupTasks, m, response);
        response := response + row;
      }
      SectionAppended(before, tasks, group, response);
      response := response + "\n";
      SectionsStep(Banner, tasks, sortedGroups, k, before);
    }
    ResponseAssembled(tasks, includeAll, response);
    response := response + Total(tasks);
    if !includeAll {
      response := response + Tip;
    }
  }

  /** A string whose `k`-th character from the end differs from `p`'s does not end with `p`. */
  lemma DiffersFromEndAt(s: string, p: string, k: nat)
    requires k < |s| && k < |p| && s[|s| - 1 - k] != p[|p| - 1 - k]
    ensures !EndsWith(s, p)
  {
    if |p| <= |s| {
      assert s[|s| - |p|..][|p| - 1 - k] == s[|s| - 1 - k];
    }
  }

  /** The response always opens with the banner; an empty listing says so and nothing else. */
  lemma ResponseOpens(tasks: seq<TaskInfo>, includeAll: bool)
    ensures StartsWith(TasksResponse(tasks, includeAll), Banner)
    ensures tasks == [] ==> TasksResponse(tasks, includeAll) == Banner + NoTasksLine
  {
    var body := if tasks == [] then NoTasksLine
                else Sections(tasks, SortedGroups(tasks)) + Total(tasks) + (if includeAll then "" else Tip);
    ConcatEnds(Banner, body);
  }

  /** A non-empty listing closes with the total, then the tip unless `includeAll` was set. */
  lemma ResponseCloses(tasks: seq<TaskInfo>, includeAll: bool)
    requires tasks != []
    ensures EndsWith(TasksResponse(tasks, includeAll), Total(tasks) + (if includeAll then "" else Tip))
  {
    var sections, tail := Sections(tasks, SortedGroups(tasks)), Total(tasks) + (if includeAll then "" else Tip);
    Regroup(Banner, sections, Total(tasks), if includeAll then "" else Tip);
    ConcatEnds(Banner + sections, tail);
  }

  /** The tip about `includeAll` ends the response exactly when tasks were found and `includeAll` was not set. */
  lemma TipShown(tasks: seq<TaskInfo>, includeAll: bool)
    ensures EndsWith(TasksResponse(tasks, includeAll), Tip) <==> tasks != [] && !includeAll
  {
    var r := TasksResponse(tasks, includeAll);
    if tasks == [] {
      ResponseOpens(tasks, includeAll);
      ConcatEnds(Banner, NoTasksLine);
      assert r[|r| - 3] == NoTasksLine[|NoTasksLine| - 3] == 'a';
      DiffersFromEndAt(r, Tip, 2);
    } else {
      ResponseCloses(tasks, includeAll);
      var total := Total(tasks);
      if includeAll {
        var digits := IntToString(|tasks|);
        assert total[|total| - 2] == digits[|digits| - 1];
        assert r[|r| - 2] == total[|total| - 2];
        DiffersFromEndAt(r, Tip, 1);
      } else {
        ConcatEnds(total, Tip);
        EndsWithShortened(r, total + Tip, Tip);
      }
    }
  }

  /**
   * `getTasksViaCommand` on the cache `c`: runs `gradle tasks` through
   * `executeBuild` and reads its output, whether or not the build succeeded.
   */
  function CommandTasks(c: Cache, cwd: string, projectPath: Option<string>, includeAll: bool, groupFilter: Option<string>,
                        now: nat, fs: FileSystem, reachable: bool, run: LaunchConfig -> BuildOutcome)
    : (Cache, Result<seq<TaskInfo>, Error>)
  {
    var (c', r) := Execute(c, cwd, projectPath, Some(["tasks"]), Some(FallbackArguments(includeAll)), now, fs, reachable, run);
    match r
    case Failure(e) => (c', Failure(e))
    case Success(build) => (c', Success(ParsedTasks(Split(build.output, '\n'), groupFilter)))
  }

  /**
   * `getProjectTasks` on the cache `c`: the tasks of the project model when
   * the connection yields one (`model`), otherwise those of the `tasks` report.
   */
  function ProjectTasks(c: Cache, cwd: string, projectPath: Option<string>, includeAll: bool, groupFilter: Option<string>,
                        now: nat, fs: FileSystem, reachable: bool, model: Option<GradleProject>,
                        run: LaunchConfig -> BuildOutcome): (Cache, Result<seq<TaskInfo>, Error>)
  {
    match ValidateProjectPath(cwd, fs, projectPath)
    case Failure(e) => (c, Failure(e))
    case Success(_) =>
      var (c', connection) := Acquire(c, AbsolutePath(cwd, projectPath.value), now, fs, reachable);
      match connection
      case Failure(e) => (c', Failure(e))
      case Success(_) =>
        match model
        case Some(project) => (c', Success(Collected(project, includeAll, groupFilter, "")))
        case None => CommandTasks(c', cwd, projectPath, includeAll, groupFilter, now, fs, reachable, run)
  }

  /**
   * Whichever way the tasks were found, a rejected path touches no
   * connection, the model's tasks need no build, and every listed task
   * passes the filters: public unless `includeAll`, and of the requested
   * group, ignoring case, when a group filter is given.
   */
  lemma ProjectTasksContract(c: Cache, cwd: string, projectPath: Option<string>, includeAll: bool,
                             groupFilter: Option<string>, now: nat, fs: FileSystem, reachable: bool,
                             model: Option<GradleProject>, run: LaunchConfig -> BuildOutcome)
    ensures var (c', r) := ProjectTasks(c, cwd, projectPath, includeAll, groupFilter, now, fs, reachable, model, run);
            && (ValidateProjectPath(cwd, fs, projectPath).Failure? ==>
                  c' == c && r == Failure(ValidateProjectPath(cwd, fs, projectPath).error))
            && (ValidateProjectPath(cwd, fs, projectPath).Success? && model.Some? ==>
                  c' == Acquire(c, AbsolutePath(cwd, projectPath.value), now, fs, reachable).0)
            && (r.Success? ==> forall t | t in r.value :: (includeAll || t.isPublic) && GroupAccepted(groupFilter, t.group))
  {
    var (c', r) := ProjectTasks(c, cwd, projectPath, includeAll, groupFilter, now, fs, reachable, model, run);
    if r.Success? {
      if model.Some? {
        CollectedKept(model.value, includeAll, groupFilter, "");
      } else {
        var c1 := Acquire(c, AbsolutePath(cwd, projectPath.value), now, fs, reachable).0;
        var (_, built) := Execute(c1, cwd, projectPath, Some(["tasks"]), Some(FallbackArguments(includeAll)), now, fs, reachable, run);
        ParsedTasksAccepted(Split(built.value.output, '\n'), groupFilter);
      }
    }
  }

  /** `getTasksViaCommand` against the connection manager. */
  method GetTasksViaCommand(manager: ConnectionManager, projectPath: Option<string>, includeAll: bool,
                            groupFilter: Option<string>, now: nat, fs: FileSystem, reachable: bool,
                            run: LaunchConfig -> BuildOutcome) returns (r: Result<seq<TaskInfo>, Error>)
    requires manager.Valid()
    modifies manager, manager.connections.Values
    ensures manager.Valid()
    ensures (manager.Abstract(), r) ==
            CommandTasks(old(manager.Abstract()), manager.workingDir, projectPath, includeAll, groupFilter, now, fs, reachable, run)
  {
    ghost var before := manager.Abstract();
    var gradleArgs: seq<string> := [];
    if includeAll {
      gradleArgs := gradleArgs + ["--all"];
    }
    assert gradleArgs == FallbackArguments(includeAll);
    var result := ExecuteBuild(manager, projectPath, Some(["tasks"]), Some(gradleArgs), now, fs, reachable, run);
    ghost var executed := Execute(before, manager.workingDir, projectPath, Some(["tasks"]), Some(FallbackArguments(includeAll)),
                                  now, fs, reachable, run);
    assert manager.Abstract() == executed.0 && result == executed.1;
    if result.Failure? {
      return Failure(result.error);
    }
    var lines := Split(result.value.output, '\n');
    var tasks := ParseTaskLines(lines, groupFilter);
    return Success(tasks);
  }

  /** `getProjectTasks` against the connection manager. */
  method GetProjectTasks(manager: ConnectionManager, projectPath: Option<string>, includeAll: bool,
                         groupFilter: Option<string>, now: nat, fs: FileSystem, reachable: bool,
                         model: Option<GradleProject>, run: LaunchConfig -> BuildOutcome)
    returns (r: Result<seq<TaskInfo>, Error>)
    requires manager.Valid()
    modifies manager, manager.connections.Values
    ensures manager.Valid()
    ensures (manager.Abstract(), r) ==
            ProjectTasks(old(manager.Abstract()), manager.workingDir, projectPath, includeAll, groupFilter,
                         now, fs, reachable, model, run)
  {
    ghost var before := manager.Abstract();
    var valid := ValidateProjectPath(manager.workingDir, fs, projectPath);
    if valid.Failure? {
      return Failure(valid.error);
    }
    var connection := manager.GetConnection(projectPath.value, now, fs, reachable);
    ghost var acquired := Acquire(before, AbsolutePath(manager.workingDir, projectPath.value), now, fs, reachable);
    assert manager.Abstract() == acquired.0 && connection == acquired.1;
    if connection.Failure? {
      return Failure(connection.error);
    }
    match model
    case Some(project) =>
      var tasks := CollectTasks(project, [], includeAll, groupFilter, "");
      assert tasks == Collected(project, includeAll, groupFilter, "");
      return Success(tasks);
    case None =>
      r := GetTasksViaCommand(manager, projectPath, includeAll, groupFilter, now, fs, reachable, run);
  }

  /**
   * `handle`: the listing as a success, or "Failed to list tasks: " and the
   * exception's message (`connectMessage` for an exception of the
   * connector) as an error.
   */
  method Handle(manager: ConnectionManager, projectPath: Option<string>, includeAll: Option<bool>, groupFilter: Option<string>,
                now: nat, fs: FileSystem, reachable: bool, model: Option<GradleProject>,
                run: LaunchConfig -> BuildOutcome, connectMessage: string) returns (result: ToolResult)
    requires manager.Valid()
    modifies manager, manager.connections.Values
    ensures manager.Valid()
    ensures var all := includeAll.GetOr(DefaultIncludeAll);
            var (c, r) := ProjectTasks(old(manager.Abstract()), manager.workingDir, projectPath, all, groupFilter,
                                       now, fs, reachable, model, run);
            && manager.Abstract() == c
            && result == match r
                         case Failure(e) => ToolResult(true, "Failed to list tasks: " + ErrorMessage(e, connectMessage))
                         case Success(tasks) => ToolResult(false, TasksResponse(tasks, all))
  {
    var all := includeAll.GetOr(DefaultIncludeAll);
    var tasks := GetProjectTasks(manager, projectPath, all, groupFilter, now, fs, reachable, model, run);
    match tasks
    case Failure(e) =>
      result := ToolResult(true, "Failed to list tasks: " + ErrorMessage(e, connectMessage));
    case Success(listed) =>
      var response := DescribeTasks(listed, all);
      result := ToolResult(false, response);
  }
}
