/**
 * The reply tool: a one-shot command that resolves which task a reply is
 * about, from the sync file, at submission time, and appends one entry to
 * the reply queue file.
 */
module JarvisReply {
  import opened Wrappers
  import opened Text
  import opened Seqs
  import opened Kanban
  import opened Cli

  // ---------------------------------------------------------------------
  // Title normalisation
  // ---------------------------------------------------------------------

  /** `normalize(value)`: a missing value is "", then `trim`, then
      `toLowerCase`. */
  function Normalize(v: Option<string>): (r: string)
    ensures IsTrimmed(r)
    ensures r == [] <==> v.None? || IsBlank(v.value)
    ensures |r| <= (if v.Some? then |v.value| else 0)
    ensures forall k :: 0 <= k < |r| ==> !('A' <= r[k] <= 'Z')
  {
    var s := if v.Some? then v.value else "";
    var t := Trim(s);
    LowerKeepsSpace(t);
    LowerNoCapitals(t);
    var r := Lower(t);
    assert |r| == |t|;
    r
  }

  /** Normalising a normalised title changes nothing. */
  lemma NormalizeIdempotent(v: Option<string>)
    ensures Normalize(Some(Normalize(v))) == Normalize(v)
  {
    var n := Normalize(v);
    assert Trim(n) == n;
    LowerIdempotent(Trim(if v.Some? then v.value else ""));
  }

  /** Normalising ignores ASCII case: a value and its lowercase form
      normalise alike. */
  lemma NormalizeIgnoresCase(s: string)
    ensures Normalize(Some(Lower(s))) == Normalize(Some(s))
  {
    LowerTrim(s);
    LowerIdempotent(Trim(s));
  }

  /** What normalising keeps: the characters of the trimmed slice of the
      value, each lowercased, and nothing else. */
  lemma NormalizeSlice(s: string)
    ensures |Normalize(Some(s))| == |Trim(s)|
    ensures forall k :: 0 <= k < |Trim(s)| ==> Normalize(Some(s))[k] == LowerChar(s[TrimOffset(s) + k])
  {
    TrimSlice(s);
    var n, t := TrimOffset(s), Trim(s);
    assert Normalize(Some(s)) == Lower(t);
    forall k | 0 <= k < |t| ensures t[k] == s[n + k] {
      assert t == s[n..n + |t|];
    }
  }

  /** The key a task is looked up by when the reply names a title. */
  function TitleKey(t: Task): string
  {
    Normalize(Some(t.title))
  }

  // ---------------------------------------------------------------------
  // Resolving the reply's target
  // ---------------------------------------------------------------------

  /** `{ id, title }` of the task the reply is about. */
  datatype Target = Target(id: string, title: string)

  function TargetOf(t: Task): Target
  {
    Target(t.id, t.title)
  }

  /** A task the assistant owns: a non-empty assignee whose lower-cased
      text contains "jarvis". */
  predicate IsAssistantTask(t: Task)
  {
    t.assignee != "" && Contains(Lower(t.assignee), "jarvis")
  }

  /** The in-progress fallback: among the tasks of the first column with id
      `col-progress`, resolved through the record in column order, the last
      one assigned to the assistant. */
  function LatestAssistantTask(columns: seq<Column>, tasks: TaskRecord): (r: Option<Target>)
    ensures r.Some? <==>
              GetColumnById(columns, "col-progress").Some? &&
              FindLastIndex(ResolvedTasks(tasks, GetColumnById(columns, "col-progress").value.taskIds),
                            IsAssistantTask).Some?
    ensures r.Some? ==>
              var ts := ResolvedTasks(tasks, GetColumnById(columns, "col-progress").value.taskIds);
              var k := FindLastIndex(ts, IsAssistantTask).value;
              r == Some(TargetOf(ts[k])) && IsAssistantTask(ts[k]) &&
              forall j :: k < j < |ts| ==> !IsAssistantTask(ts[j])
  {
    match GetColumnById(columns, "col-progress")
    case None => None
    case Some(progress) =>
      var candidates := Filter(ResolvedTasks(tasks, progress.taskIds), IsAssistantTask);
      if |candidates| > 0 then Some(TargetOf(candidates[|candidates| - 1])) else None
  }

  /** The id given with `--taskId` names a task of the record. */
  predicate ById(tasks: TaskRecord, taskId: Option<string>)
  {
    Truthy(taskId) && taskId.value in tasks.entries
  }

  /** Some task's normalised title equals the normalised query. */
  predicate HasExact(vs: seq<Task>, q: string)
  {
    exists k :: 0 <= k < |vs| && TitleKey(vs[k]) == q
  }

  /** Some task's normalised title contains the normalised query. */
  predicate HasFuzzy(vs: seq<Task>, q: string)
  {
    exists k :: 0 <= k < |vs| && Contains(TitleKey(vs[k]), q)
  }

  /** The index of the first task, in record order, whose normalised title
      is the query. */
  function FirstExact(vs: seq<Task>, q: string): (r: Option<nat>)
    ensures r.Some? ==> r.value < |vs| && TitleKey(vs[r.value]) == q
    ensures r.Some? ==> forall j :: 0 <= j < r.value ==> TitleKey(vs[j]) != q
    ensures r.None? <==> !HasExact(vs, q)
  {
    FindIndex(vs, (t: Task) => TitleKey(t) == q)
  }

  /** The index of the first task whose normalised title contains the query. */
  function FirstFuzzy(vs: seq<Task>, q: string): (r: Option<nat>)
    ensures r.Some? ==> r.value < |vs| && Contains(TitleKey(vs[r.value]), q)
    ensures r.Some? ==> forall j :: 0 <= j < r.value ==> !Contains(TitleKey(vs[j]), q)
    ensures r.None? <==> !HasFuzzy(vs, q)
    ensures r.None? ==> !HasExact(vs, q)
  {
    var r := FindIndex(vs, (t: Task) => Contains(TitleKey(t), q));
    assert r.None? ==> !HasExact(vs, q) by {
      if r.None? {
        forall k | 0 <= k < |vs| ensures TitleKey(vs[k]) != q {
          ContainsTrivial(TitleKey(vs[k]));
        }
      }
    }
    r
  }

  /** The lookup chain of `resolveTarget` on a board that has columns and
      tasks: the record entry under `--taskId`; else, when `--title` is
      given, the first task in record order whose normalised title equals
      the normalised query, else the first whose normalised title contains
      it; else the in-progress fallback. */
  function ResolveIn(columns: seq<Column>, tasks: TaskRecord, taskId: Option<string>, taskTitle: Option<string>)
    : (r: Option<Target>)
    ensures ById(tasks, taskId) ==> r == Some(Target(taskId.value, tasks.entries[taskId.value].title))
    ensures !ById(tasks, taskId) && Truthy(taskTitle) ==>
              var vs := tasks.Values();
              var q := Normalize(taskTitle);
              && (FirstExact(vs, q).Some? ==> r == Some(TargetOf(vs[FirstExact(vs, q).value])))
              && (FirstExact(vs, q).None? && FirstFuzzy(vs, q).Some? ==> r == Some(TargetOf(vs[FirstFuzzy(vs, q).value])))
    ensures !ById(tasks, taskId) && !(Truthy(taskTitle) && HasFuzzy(tasks.Values(), Normalize(taskTitle))) ==>
              r == LatestAssistantTask(columns, tasks)
  {
    if ById(tasks, taskId) then
      Some(Target(taskId.value, tasks.entries[taskId.value].title))
    else
      var vs := tasks.Values();
      var q := Normalize(taskTitle);
      var exact := FirstExact(vs, q);
      var fuzzy := FirstFuzzy(vs, q);
      if Truthy(taskTitle) && exact.Some? then
        Some(TargetOf(vs[exact.value]))
      else if Truthy(taskTitle) && fuzzy.Some? then
        Some(TargetOf(vs[fuzzy.value]))
      else
        LatestAssistantTask(columns, tasks)
  }

  /** What the reply tool finds at the sync path: nothing, a file that
      cannot be read or parsed, or the parsed document. */
  datatype ReplySource = Missing | Unreadable | Readable(doc: FileDocument)

  /** `resolveTarget()`: nothing when the file is missing, unreadable, or its
      resolved board lacks `columns` or `tasks`; otherwise `ResolveIn`. */
  function ResolveTarget(source: ReplySource, taskId: Option<string>, taskTitle: Option<string>): (r: Option<Target>)
    ensures source.Missing? || source.Unreadable? ==> r == None
    ensures source.Readable? && FileActiveBoard(source.doc).None? ==> r == None
    ensures source.Readable? && FileActiveBoard(source.doc).Some? ==>
              var b := FileActiveBoard(source.doc).value;
              r == if b.columns.None? || b.tasks.None? then None
                   else ResolveIn(b.columns.value, b.tasks.value, taskId, taskTitle)
  {
    match source
    case Missing => None
    case Unreadable => None
    case Readable(doc) =>
      match FileActiveBoard(doc)
      case None => None
      case Some(board) =>
        if board.columns.None? || board.tasks.None? then None
        else ResolveIn(board.columns.value, board.tasks.value, taskId, taskTitle)
  }

  /** An exact title match wins over a task earlier in the record whose
      title only contains the query. */
  lemma ExactBeatsEarlierFuzzy(columns: seq<Column>, tasks: TaskRecord, taskId: Option<string>, taskTitle: Option<string>,
                               k: nat)
    requires !ById(tasks, taskId) && Truthy(taskTitle)
    requires k < |tasks.Values()| && TitleKey(tasks.Values()[k]) == Normalize(taskTitle)
    ensures var r := ResolveIn(columns, tasks, taskId, taskTitle);
            r.Some? && Normalize(Some(r.value.title)) == Normalize(taskTitle)
  {
  }

  /** A blank `--title` normalises to "", which every title contains: when
      no task title is itself blank, the first task of the record is chosen. */
  lemma {:induction false} BlankTitleTakesFirstTask(columns: seq<Column>, tasks: TaskRecord, taskId: Option<string>,
                                                    taskTitle: Option<string>)
    requires !ById(tasks, taskId) && Truthy(taskTitle) && IsBlank(taskTitle.value)
    requires |tasks.Values()| > 0
    requires forall k :: 0 <= k < |tasks.Values()| ==> !IsBlank(tasks.Values()[k].title)
    ensures ResolveIn(columns, tasks, taskId, taskTitle) == Some(TargetOf(tasks.Values()[0]))
  {
    var vs := tasks.Values();
    var q := Normalize(taskTitle);
    assert q == "";
    assert !HasExact(vs, q) by {
      forall k | 0 <= k < |vs| ensures TitleKey(vs[k]) != q {
        assert !IsBlank(vs[k].title);
      }
    }
    ContainsTrivial(TitleKey(vs[0]));
    assert FirstFuzzy(vs, q) == Some(0);
  }

  /** An id given with `--taskId` that the board does not have does not stop
      the lookup: with no title, the in-progress fallback decides. */
  lemma UnknownIdFallsBack(columns: seq<Column>, tasks: TaskRecord, taskId: Option<string>)
    requires taskId.Some? && taskId.value !in tasks.entries
    ensures ResolveIn(columns, tasks, taskId, None) == LatestAssistantTask(columns, tasks)
  {
  }

  // ---------------------------------------------------------------------
  // The queue file and the submitted entry
  // ---------------------------------------------------------------------

  /** The entry the tool appends. */
  datatype ReplyEntry = ReplyEntry(
    id: string,
    taskId: Option<string>,
    title: Option<string>,
    content: string,
    markComplete: bool,
    createdAt: string,
    syncFile: string)

  /** An element of the queue array: one of ours, or any other JSON value
      (kept as its text), which the tool passes through untouched. */
  datatype QueueItem = Reply(entry: ReplyEntry) | Foreign(json: string)

  /** What the tool finds at `.sync/assistant-replies.json`. */
  datatype QueueFile =
    | Absent
    | Unparseable
    | Items(items: seq<QueueItem>)   // a JSON array
    | NotAnArray                     // valid JSON of another kind

  datatype Outcome =
    | Usage(exitCode: int)           // usage message, `process.exit(1)`
    | Crashed                        // `queue.push` throws: nothing written
    | Queued(queue: seq<QueueItem>)  // the array written back

  /** The queue before the push. */
  function LoadedQueue(file: QueueFile): (r: seq<QueueItem>)
    ensures file.Items? ==> r == file.items
    ensures !file.Items? ==> r == []
  {
    if file.Items? then file.items else []
  }

  /** `reply-${Date.now()}-${Math.random()}`, the clock and the random
      number given as their decimal text. */
  function ReplyId(nowMs: nat, random: string): (r: string)
    ensures |r| > 7 + |random|
    ensures r[..6] == "reply-"
  {
    "reply-" + NatToString(nowMs) + "-" + random
  }

  /** The sync file the tool was pointed at: `--file`, else `SYNC_FILE`. */
  function SyncFileArg(args: seq<string>, envSyncFile: Option<string>): Option<string>
  {
    OrElse(GetArg(args, "file"), envSyncFile)
  }

  /** The entry pushed for a reply: the resolved target's id and title when
      the lookup succeeded, else whatever `--taskId` and `--title` said. */
  function NewEntry(args: seq<string>, syncFile: string, content: string, resolved: Option<Target>,
                    id: string, createdAt: string): (r: ReplyEntry)
    ensures resolved.Some? ==> r.taskId == Some(resolved.value.id) && r.title == Some(resolved.value.title)
    ensures resolved.None? ==> r.taskId == GetArg(args, "taskId") && r.title == GetArg(args, "title")
    ensures r.markComplete <==> "--complete" in args
    ensures r.content == content && r.syncFile == syncFile && r.id == id && r.createdAt == createdAt
  {
    ReplyEntry(
      id,
      if resolved.Some? then Some(resolved.value.id) else GetArg(args, "taskId"),
      if resolved.Some? then Some(resolved.value.title) else GetArg(args, "title"),
      content,
      HasFlag(args, "--complete"),
      createdAt,
      syncFile)
  }

  /** One run of the tool, as the script runs it: check the arguments, load
      the queue (missing or unparseable meaning empty), resolve the target,
      push one entry and write the array back. */
  method Submit(args: seq<string>, envSyncFile: Option<string>, source: ReplySource, queueFile: QueueFile,
                nowMs: nat, random: string, createdAt: string) returns (outcome: Outcome)
    ensures outcome.Usage? <==> !Truthy(SyncFileArg(args, envSyncFile)) || !Truthy(GetArg(args, "message"))
    ensures outcome.Usage? ==> outcome.exitCode == 1
    ensures outcome.Crashed? <==> !outcome.Usage? && queueFile.NotAnArray?
    ensures outcome.Queued? ==>
              outcome.queue == LoadedQueue(queueFile) + [Reply(NewEntry(
                args, SyncFileArg(args, envSyncFile).value, GetArg(args, "message").value,
                ResolveTarget(source, GetArg(args, "taskId"), GetArg(args, "title")),
                ReplyId(nowMs, random), createdAt))]
  {
    var syncFile := SyncFileArg(args, envSyncFile);
    var taskId := GetArg(args, "taskId");
    var taskTitle := GetArg(args, "title");
    var content := GetArg(args, "message");
    if !Truthy(syncFile) || !Truthy(content) {
      return Usage(1);
    }
    var queue: seq<QueueItem> := [];
    var pushable := true;
    match queueFile {
      case Absent =>
      case Unparseable => queue := [];
      case Items(items) => queue := items;
      case NotAnArray => pushable := false;
    }
    var resolved := ResolveTarget(source, taskId, taskTitle);
    if !pushable {
      return Crashed;
    }
    var entry := NewEntry(args, syncFile.value, content.value, resolved, ReplyId(nowMs, random), createdAt);
    queue := queue + [Reply(entry)];
    outcome := Queued(queue);
  }
}
