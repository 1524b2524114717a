/**
 * The sync agent: a poller that watches the sync file's modification time,
 * keeps the last document it could parse, and mirrors it into two derived
 * outputs, a JSON copy and a markdown summary.
 */
module SyncAgent {
  import opened Wrappers
  import opened Text
  import opened Kanban
  import opened Cli
  import opened Seqs

  // ---------------------------------------------------------------------
  // Start-up configuration
  // ---------------------------------------------------------------------

  datatype Config = Config(syncFile: string, latestName: string, summaryName: string, intervalMs: real)

  datatype Startup =
    | MissingSyncFile(exitCode: int)   // usage message, `process.exit(1)`
    | Started(config: Config)

  /** The polling period: `Number(getArg("interval") || SYNC_INTERVAL || 1500)`,
      replaced by 1500 when it is not finite.  `number(s)` is the finite value
      of `Number(s)` when there is one. */
  function IntervalMs(args: seq<string>, envInterval: Option<string>, number: string -> Option<real>): (r: real)
    ensures !Truthy(OrElse(GetArg(args, "interval"), envInterval)) ==> r == 1500.0
    ensures Truthy(OrElse(GetArg(args, "interval"), envInterval)) ==>
              var s := OrElse(GetArg(args, "interval"), envInterval).value;
              r == if number(s).Some? then number(s).value else 1500.0
  {
    var chosen := OrElse(GetArg(args, "interval"), envInterval);
    if Truthy(chosen) then
      match number(chosen.value)
      case Some(v) => v
      case None => 1500.0
    else 1500.0
  }

  /** The agent refuses to start, with status 1, when neither `--file` nor
      `SYNC_FILE` names the sync file; the output names come from `--out`
      and `--summary` when those are non-empty, else default to
      `latest.json` and `summary.md`. */
  function LoadConfig(args: seq<string>, envSyncFile: Option<string>, envInterval: Option<string>,
                      number: string -> Option<real>): (r: Startup)
    ensures r.MissingSyncFile? <==> !Truthy(GetArg(args, "file")) && !Truthy(envSyncFile)
    ensures r.MissingSyncFile? ==> r.exitCode == 1
    ensures r.Started? ==>
              && r.config.syncFile != ""
              && r.config.syncFile == (if Truthy(GetArg(args, "file")) then GetArg(args, "file").value else envSyncFile.value)
    ensures r.Started? ==>
              r.config.latestName == if Truthy(GetArg(args, "out")) then GetArg(args, "out").value else "latest.json"
    ensures r.Started? ==>
              r.config.summaryName == if Truthy(GetArg(args, "summary")) then GetArg(args, "summary").value else "summary.md"
    ensures r.Started? ==> r.config.intervalMs == IntervalMs(args, envInterval, number)
  {
    var syncFile := OrElse(GetArg(args, "file"), envSyncFile);
    if !Truthy(syncFile) then MissingSyncFile(1)
    else
      var out := OrElse(GetArg(args, "out"), Some("latest.json"));
      var summary := OrElse(GetArg(args, "summary"), Some("summary.md"));
      Started(Config(syncFile.value, out.value, summary.value, IntervalMs(args, envInterval, number)))
  }

  // ---------------------------------------------------------------------
  // The summary renderer
  // ---------------------------------------------------------------------

  /** `formatTask`: "- title", then " @assignee", " · priority" and
      " · dueDate", each only when its field is non-empty, in that order. */
  function FormatTask(t: Task): string
  {
    var who := if t.assignee != "" then " @" + t.assignee else "";
    var priority := if t.priority != "" then " · " + t.priority else "";
    var due := if t.dueDate != "" then " · " + t.dueDate else "";
    "- " + t.title + (who + (priority + due))
  }

  /** The line of a task: `- title` first, ` @assignee` right after it,
      then ` · priority`, and ` · dueDate` last, each of the three only
      when its field is non-empty; the bare `- title` exactly when all
      three are empty. */
  lemma FormatTaskShape(t: Task)
    ensures var r := FormatTask(t);
            var at := 2 + |t.title| + (if t.assignee == "" then 0 else 2 + |t.assignee|);
            && |r| == at + (if t.priority == "" then 0 else 3 + |t.priority|)
                         + (if t.dueDate == "" then 0 else 3 + |t.dueDate|)
            && r[..2 + |t.title|] == "- " + t.title
            && (r == "- " + t.title <==> t.assignee == "" && t.priority == "" && t.dueDate == "")
            && (t.assignee != "" ==> r[2 + |t.title|..][..2 + |t.assignee|] == " @" + t.assignee)
            && (t.priority != "" ==> r[at..][..3 + |t.priority|] == " · " + t.priority)
            && (t.dueDate != "" ==> r[|r| - (3 + |t.dueDate|)..] == " · " + t.dueDate)
  {
    var who := if t.assignee != "" then " @" + t.assignee else "";
    var priority := if t.priority != "" then " · " + t.priority else "";
    var due := if t.dueDate != "" then " · " + t.dueDate else "";
    SplitFour("- " + t.title, who, priority, due);
  }

  /** Where each of four concatenated parts sits in the whole. */
  lemma SplitFour(h: string, a: string, b: string, c: string)
    ensures var r := h + (a + (b + c));
            && |r| == |h| + |a| + |b| + |c|
            && r[..|h|] == h
            && r[|h|..][..|a|] == a
            && r[|h| + |a|..][..|b|] == b
            && r[|r| - |c|..] == c
  {
    var r := h + (a + (b + c));
    assert r[|h|..] == a + (b + c);
    assert r[|h| + |a|..] == b + c;
  }

  /** `project?.name ?? "N/A"` for the resolved project. */
  function ProjectLabel(doc: FileDocument): (r: string)
    ensures FileActiveProject(doc).None? ==> r == "N/A"
    ensures FileActiveProject(doc).Some? && FileActiveProject(doc).value.name.Some? ==> r == FileActiveProject(doc).value.name.value
    ensures r != "N/A" ==> FileActiveProject(doc).Some? && FileActiveProject(doc).value.name == Some(r)
  {
    match FileActiveProject(doc)
    case None => "N/A"
    case Some(p) => if p.name.Some? then p.name.value else "N/A"
  }

  /** `board?.name ?? "N/A"` for the resolved board. */
  function BoardLabel(doc: FileDocument): (r: string)
    ensures FileActiveBoard(doc).None? ==> r == "N/A"
    ensures FileActiveBoard(doc).Some? && FileActiveBoard(doc).value.name.Some? ==> r == FileActiveBoard(doc).value.name.value
    ensures r != "N/A" ==> FileActiveBoard(doc).Some? && FileActiveBoard(doc).value.name == Some(r)
  {
    match FileActiveBoard(doc)
    case None => "N/A"
    case Some(b) => if b.name.Some? then b.name.value else "N/A"
  }

  /** The six lines every summary starts with; `now` stands in for
      `new Date().toISOString()` when the document has no `exportedAt`. */
  function HeaderLines(doc: FileDocument, now: string): (r: seq<string>)
    ensures |r| == 6 && r[0] == "# Sync Summary" && r[4] == "" && r[5] == "## Columns"
    ensures r[1] == "- Project: " + ProjectLabel(doc) && r[2] == "- Board: " + BoardLabel(doc)
    ensures Truthy(doc.exportedAt) ==> r[3] == "- Updated: " + doc.exportedAt.value
    ensures !Truthy(doc.exportedAt) ==> r[3] == "- Updated: " + now
  {
    var exportedAt := if Truthy(doc.exportedAt) then doc.exportedAt.value else now;
    [ "# Sync Summary",
      "- Project: " + ProjectLabel(doc),
      "- Board: " + BoardLabel(doc),
      "- Updated: " + exportedAt,
      "",
      "## Columns" ]
  }

  /** One line per task. */
  function TaskLines(ts: seq<Task>): (r: seq<string>)
    ensures |r| == |ts| && forall k :: 0 <= k < |ts| ==> r[k] == FormatTask(ts[k])
  {
    seq(|ts|, k requires 0 <= k < |ts| => FormatTask(ts[k]))
  }

  /** The block of one column. */
  function ColumnBlock(tasks: TaskRecord, c: Column): seq<string>
  {
    var ts := ResolvedTasks(tasks, c.taskIds);
    ["### " + c.title + " (" + NatToString(|ts|) + ")"]
      + (if |ts| == 0 then ["- (empty)"] else TaskLines(ts))
      + [""]
  }

  /** The block of every column, in column order. */
  function Blocks(tasks: TaskRecord, columns: seq<Column>): (r: seq<seq<string>>)
    ensures |r| == |columns|
  {
    seq(|columns|, k requires 0 <= k < |columns| => ColumnBlock(tasks, columns[k]))
  }

  /** The column blocks, one after the other. */
  function ColumnsLines(tasks: TaskRecord, columns: seq<Column>): seq<string>
  {
    Flatten(Blocks(tasks, columns))
  }

  /** The lines of the summary: the header, then "- No data" when the board
      does not resolve or lacks `columns` or `tasks`, else the column blocks. */
  function SummaryLines(doc: FileDocument, now: string): seq<string>
  {
    var board := FileActiveBoard(doc);
    if board.None? || board.value.columns.None? || board.value.tasks.None? then
      HeaderLines(doc, now) + ["- No data"]
    else
      HeaderLines(doc, now) + ColumnsLines(board.value.tasks.value, board.value.columns.value)
  }

  /** `renderSummary(data)`. */
  function Summary(doc: FileDocument, now: string): string
  {
    Join(SummaryLines(doc, now), "\n")
  }

  /** The body of the `forEach` over the columns: the heading, then the
      placeholder or one pushed line per resolved task, then the blank line. */
  method RenderColumn(tasks: TaskRecord, column: Column) returns (block: seq<string>)
    ensures block == ColumnBlock(tasks, column)
  {
    var ts := ResolvedTasks(tasks, column.taskIds);
    block := ["### " + column.title + " (" + NatToString(|ts|) + ")"];
    if |ts| == 0 {
      block := block + ["- (empty)"];
    } else {
      var j := 0;
      while j < |ts|
        invariant 0 <= j <= |ts|
        invariant block == ["### " + column.title + " (" + NatToString(|ts|) + ")"] + TaskLines(ts[..j])
      {
        assert TaskLines(ts[..j + 1]) == TaskLines(ts[..j]) + [FormatTask(ts[j])];
        block := block + [FormatTask(ts[j])];
        j := j + 1;
      }
      assert ts[..j] == ts;
    }
    block := block + [""];
  }

  /** The `forEach` over the columns, pushing each column's block. */
  method RenderColumns(tasks: TaskRecord, columns: seq<Column>) returns (lines: seq<string>)
    ensures lines == ColumnsLines(tasks, columns)
  {
    lines := [];
    var i := 0;
    while i < |columns|
      invariant 0 <= i <= |columns|
      invariant lines == ColumnsLines(tasks, columns[..i])
    {
      var block := RenderColumn(tasks, columns[i]);
      assert columns[..i + 1] == columns[..i] + [columns[i]];
      ColumnsLinesConcat(tasks, columns[..i], [columns[i]]);
      ColumnsLinesSingle(tasks, columns[i]);
      lines := lines + block;
      i := i + 1;
    }
    assert columns[..i] == columns;
  }

  /** `renderSummary`, as the source runs it: a `lines` array grown by `push`
      inside a `forEach` over the columns and one over each column's tasks. */
  method RenderSummary(doc: FileDocument, now: string) returns (text: string)
    ensures text == Summary(doc, now)
  {
    var board := FileActiveBoard(doc);
    var lines := HeaderLines(doc, now);
    if board.None? || board.value.columns.None? || board.value.tasks.None? {
      lines := lines + ["- No data"];
    } else {
      var body := RenderColumns(board.value.tasks.value, board.value.columns.value);
      lines := lines + body;
    }
    text := Join(lines, "\n");
  }

  /** If the board does not resolve, or lacks `columns` or `tasks`, the
      summary is exactly the header and "- No data". */
  lemma SummaryNoData(doc: FileDocument, now: string)
    requires FileActiveBoard(doc).None? || FileActiveBoard(doc).value.columns.None? ||
             FileActiveBoard(doc).value.tasks.None?
    ensures SummaryLines(doc, now) == HeaderLines(doc, now) + ["- No data"]
    ensures |SummaryLines(doc, now)| == 7
  {
  }

  /** A column's block: the heading carries the number of its ids the task
      record resolves, followed by "- (empty)" when there are none and by one
      `formatTask` line per resolved task in column order otherwise, and the
      block ends with a blank line. */
  lemma ColumnBlockShape(tasks: TaskRecord, c: Column)
    ensures var ts := ResolvedTasks(tasks, c.taskIds);
            var b := ColumnBlock(tasks, c);
            && b[0] == "### " + c.title + " (" + NatToString(|ts|) + ")"
            && b[|b| - 1] == ""
            && (|ts| == 0 ==> b == [b[0], "- (empty)", ""])
            && (|ts| > 0 ==> |b| == |ts| + 2 && forall k :: 0 <= k < |ts| ==> b[k + 1] == FormatTask(ts[k]))
  {
  }

  /** The column blocks of a split sequence of columns are the blocks of
      each part, so every column contributes its block in column order. */
  lemma ColumnsLinesConcat(tasks: TaskRecord, a: seq<Column>, b: seq<Column>)
    ensures ColumnsLines(tasks, a + b) == ColumnsLines(tasks, a) + ColumnsLines(tasks, b)
  {
    assert Blocks(tasks, a + b) == Blocks(tasks, a) + Blocks(tasks, b);
    FlattenConcat(Blocks(tasks, a), Blocks(tasks, b));
  }

  /** One column contributes exactly its block. */
  lemma ColumnsLinesSingle(tasks: TaskRecord, c: Column)
    ensures ColumnsLines(tasks, [c]) == ColumnBlock(tasks, c)
  {
    assert Blocks(tasks, [c]) == [ColumnBlock(tasks, c)];
  }

  // ---------------------------------------------------------------------
  // The poller
  // ---------------------------------------------------------------------

  /** What `JSON.parse` gives, as far as the agent can tell: `null`; a
      falsy primitive (`false`, `0`, `""`); a truthy primitive or an array,
      on which every property the renderer reads is undefined; or an object,
      read as a document. */
  datatype Json = JNull | JFalsy | JTruthy | JObject(doc: FileDocument)

  /** The truthiness test `if (lastGood)` applies. */
  predicate JsonTruthy(v: Json)
  {
    v.JTruthy? || v.JObject?
  }

  /** The document `renderSummary` reads from a value other than `null`;
      a primitive or an array has no property at all. */
  function DocOf(v: Json): (d: FileDocument)
    requires !v.JNull?
    ensures v.JObject? ==> d == v.doc
    ensures !v.JObject? ==> d.projects.None? && d.exportedAt.None?
  {
    if v.JObject? then v.doc else FileDocument(None, None, None, None)
  }

  /** What one cycle finds at the sync path: nothing; a file whose `stat`
      fails; or a file with its modification time (milliseconds) and the
      value read from it, `None` when reading or `JSON.parse` fails. */
  datatype SourceFile =
    | Missing
    | StatFailed
    | Present(mtime: int, content: Option<Json>)

  /** What one `writeOutputs` call leaves behind: the JSON mirror of the
      value, and its summary, `None` when `renderSummary` threw after the
      mirror was written. */
  datatype Outputs = Outputs(latest: Json, summary: Option<string>)

  /** The poller's module-level state. */
  datatype PollState = PollState(lastMtime: int, lastGood: Json)

  datatype PollResult = PollResult(state: PollState, written: Option<Outputs>)

  /** `writeOutputs(v)`: the mirror is always written; the summary is not
      when `renderSummary` dereferences `null`. */
  function WriteOutputs(v: Json, now: string): (r: Outputs)
    ensures r.latest == v
    ensures r.summary.None? <==> v.JNull?
    ensures v.JObject? ==> r.summary == Some(Summary(v.doc, now))
  {
    Outputs(v, if v.JNull? then None else Some(Summary(DocOf(v), now)))
  }

  /** What `writeOutputs(lastGood)` writes in the `catch` branch, if anything. */
  function Republish(st: PollState, now: string): (r: Option<Outputs>)
    ensures r.Some? <==> JsonTruthy(st.lastGood)
    ensures r.Some? ==> r.value.latest == st.lastGood && r.value.summary.Some?
  {
    if JsonTruthy(st.lastGood) then Some(WriteOutputs(st.lastGood, now)) else None
  }

  /** One `readSyncFile` cycle.  A newer file that parses becomes the state
      before its outputs are written, so a `null` that makes the summary
      throw has already replaced the snapshot the `catch` would republish. */
  function Poll(st: PollState, file: SourceFile, now: string): (r: PollResult)
    ensures r.state.lastMtime >= st.lastMtime
    ensures r.state != st ==> file.Present? && file.mtime > st.lastMtime && file.content.Some? &&
                              r.state == PollState(file.mtime, file.content.value)
  {
    match file
    case Missing => PollResult(st, None)
    case StatFailed => PollResult(st, Republish(st, now))
    case Present(mtime, content) =>
      if mtime <= st.lastMtime then PollResult(st, None)
      else match content
        case None => PollResult(st, Republish(st, now))
        case Some(v) =>
          var next := PollState(mtime, v);
          // `writeOutputs(data)` throwing on `null` lands in the `catch`,
          // which finds `lastGood` already `null` and writes nothing more
          PollResult(next, Some(WriteOutputs(v, now)))
  }

  /** The poller state is initialised to `lastMtime = 0`, `lastGood = null`
      and holds a value other than `null` only once a file newer than time
      0 was parsed. */
  ghost predicate Consistent(st: PollState)
  {
    st.lastMtime >= 0 && (st.lastMtime == 0 ==> st.lastGood == JNull)
  }

  /** The module-level variables `lastMtime` and `lastGood` of the agent,
      updated in place by `readSyncFile`. */
  class SyncPoller {
    var lastMtime: int
    var lastGood: Json

    ghost predicate Valid()
      reads this
    {
      Consistent(PollState(lastMtime, lastGood))
    }

    constructor ()
      ensures Valid() && lastMtime == 0 && lastGood == JNull
    {
      lastMtime := 0;
      lastGood := JNull;
    }

    /** `readSyncFile`: the outputs it writes, if any, and the new state
        are those of `Poll`. */
    method ReadSyncFile(file: SourceFile, now: string) returns (written: Option<Outputs>)
      requires Valid()
      modifies this
      ensures Valid()
      ensures Poll(PollState(old(lastMtime), old(lastGood)), file, now)
              == PollResult(PollState(lastMtime, lastGood), written)
    {
      written := None;
      var failed := false;
      if file.Missing? {
        return;   // "waiting for ..."
      }
      if file.StatFailed? {
        failed := true;
      } else if file.mtime <= lastMtime {
        return;
      } else if file.content.None? {
        failed := true;
      } else {
        var data := file.content.value;
        lastMtime := file.mtime;
        lastGood := data;
        if data.JNull? {
          written := Some(Outputs(data, None));   // `renderSummary(null)` throws
          failed := true;
        } else {
          var summary := RenderSummary(DocOf(data), now);
          written := Some(Outputs(data, Some(summary)));
        }
      }
      if failed && JsonTruthy(lastGood) {
        var summary := RenderSummary(DocOf(lastGood), now);
        written := Some(Outputs(lastGood, Some(summary)));
      }
    }
  }

  /** One cycle preserves the state invariant. */
  lemma PollConsistent(st: PollState, file: SourceFile, now: string)
    requires Consistent(st)
    ensures Consistent(Poll(st, file, now).state)
  {
  }

  /** A missing sync file writes nothing and changes nothing. */
  lemma PollMissing(st: PollState, now: string)
    ensures Poll(st, Missing, now) == PollResult(st, None)
  {
  }

  /** A file not newer than `lastMtime` is skipped entirely. */
  lemma PollNotNewer(st: PollState, mtime: int, content: Option<Json>, now: string)
    requires mtime <= st.lastMtime
    ensures Poll(st, Present(mtime, content), now) == PollResult(st, None)
  {
  }

  /** A newer file that parses becomes `lastGood` with its mtime and is
      mirrored; an object is summarised as a document, a primitive or an
      array as "- No data" under the current time, and `null` gets no
      summary. */
  lemma PollFresh(st: PollState, mtime: int, v: Json, now: string)
    requires mtime > st.lastMtime
    ensures var r := Poll(st, Present(mtime, Some(v)), now);
            && r.state == PollState(mtime, v)
            && r.written.Some? && r.written.value.latest == v
            && (v.JObject? ==> r.written.value.summary == Some(Summary(v.doc, now)))
            && (v.JNull? ==> r.written.value.summary.None?)
            && (v.JFalsy? || v.JTruthy? ==> r.written.value.summary == Some(Join(PrimitiveSummaryLines(now), "\n")))
  {
    if v.JFalsy? || v.JTruthy? {
      PrimitiveSummary(v, now);
    }
  }

  /** The summary of a value without properties. */
  function PrimitiveSummaryLines(now: string): seq<string>
  {
    ["# Sync Summary", "- Project: N/A", "- Board: N/A", "- Updated: " + now, "", "## Columns", "- No data"]
  }

  /** A primitive or an array resolves no project and has no `exportedAt`,
      so its summary names nothing and is dated `now`. */
  lemma PrimitiveSummary(v: Json, now: string)
    requires v.JFalsy? || v.JTruthy?
    ensures SummaryLines(DocOf(v), now) == PrimitiveSummaryLines(now)
  {
    var d := DocOf(v);
    assert FileActiveProject(d).None? && FileActiveBoard(d).None?;
    SummaryNoData(d, now);
    assert ProjectLabel(d) == "N/A" && BoardLabel(d) == "N/A" && !Truthy(d.exportedAt);
    assert "- Project: " + "N/A" == "- Project: N/A" && "- Board: " + "N/A" == "- Board: N/A";
    var h := HeaderLines(d, now);
    assert h == ["# Sync Summary", "- Project: N/A", "- Board: N/A", "- Updated: " + now, "", "## Columns"];
  }

  /** A failed `stat`, read or parse keeps the state, and the outputs are
      rewritten from `lastGood` exactly when it is truthy. */
  lemma PollFailure(st: PollState, file: SourceFile, now: string)
    requires file.StatFailed? || (file.Present? && file.mtime > st.lastMtime && file.content.None?)
    ensures Poll(st, file, now).state == st
    ensures Poll(st, file, now).written.Some? <==> JsonTruthy(st.lastGood)
    ensures JsonTruthy(st.lastGood) ==> Poll(st, file, now).written == Some(WriteOutputs(st.lastGood, now))
  {
  }

  /** A newer file holding `null` replaces even a good snapshot: the mirror
      becomes `null`, no summary is written, and a later failed read has
      nothing left to republish. */
  lemma NullDropsSnapshot(st: PollState, mtime: int, now: string, now': string)
    requires JsonTruthy(st.lastGood) && mtime > st.lastMtime
    ensures var first := Poll(st, Present(mtime, Some(JNull)), now);
            && first.state.lastGood == JNull
            && first.written == Some(Outputs(JNull, None))
            && Poll(first.state, StatFailed, now').written == None
  {
  }

  /** A sequence of cycles, each finding a file and a current time. */
  datatype Cycle = Cycle(file: SourceFile, now: string)

  function Run(st: PollState, cycles: seq<Cycle>): PollState
    decreases |cycles|
  {
    if |cycles| == 0 then st
    else Run(Poll(st, cycles[0].file, cycles[0].now).state, cycles[1..])
  }

  /** Over any run, `lastMtime` never decreases and the invariant holds. */
  lemma {:induction false} RunMonotone(st: PollState, cycles: seq<Cycle>)
    requires Consistent(st)
    ensures Run(st, cycles).lastMtime >= st.lastMtime
    ensures Consistent(Run(st, cycles))
    decreases |cycles|
  {
    if |cycles| > 0 {
      var next := Poll(st, cycles[0].file, cycles[0].now).state;
      PollConsistent(st, cycles[0].file, cycles[0].now);
      RunMonotone(next, cycles[1..]);
    }
  }

  /** Polling an unchanged file again re-reads nothing: after a cycle that
      saw a parseable file with modification time `mtime`, a second cycle
      on a file with the same time writes nothing. */
  lemma PollAgainSkips(st: PollState, mtime: int, content: Option<Json>, content': Option<Json>,
                       now: string, now': string)
    requires content.Some?
    ensures var first := Poll(st, Present(mtime, content), now).state;
            Poll(first, Present(mtime, content'), now') == PollResult(first, None)
  {
  }

  /** After a failed read of a newer file, the next cycle that reads the same
      file successfully takes it. */
  lemma PollRetriesAfterFailure(st: PollState, mtime: int, v: Json, now: string, now': string)
    requires mtime > st.lastMtime
    ensures var first := Poll(st, Present(mtime, None), now).state;
            first == st &&
            Poll(first, Present(mtime, Some(v)), now').state == PollState(mtime, v)
  {
  }

  /** A cycle that parses a newer file to a falsy value, which replaces a
      snapshot with something the `catch` will not republish. */
  predicate ParsesFalsy(f: SourceFile)
  {
    f.Present? && f.content.Some? && !JsonTruthy(f.content.value)
  }

  /** Once a truthy value is the snapshot, it stays truthy over any run in
      which no file parses to `null` or a falsy primitive: every later
      failed read still republishes outputs. */
  lemma {:induction false} RunKeepsSnapshot(st: PollState, cycles: seq<Cycle>)
    requires JsonTruthy(st.lastGood)
    requires forall k :: 0 <= k < |cycles| ==> !ParsesFalsy(cycles[k].file)
    ensures JsonTruthy(Run(st, cycles).lastGood)
    decreases |cycles|
  {
    if |cycles| > 0 {
      assert !ParsesFalsy(cycles[0].file);
      assert forall k :: 0 <= k < |cycles[1..]| ==> cycles[1..][k] == cycles[k + 1];
      RunKeepsSnapshot(Poll(st, cycles[0].file, cycles[0].now).state, cycles[1..]);
    }
  }
}
