# Jarvis kanban: board logic, sync mirror and reply tool in Dafny

Jarvis kanban is a single-page kanban board (a React page), plus two small
Node scripts that work on the JSON document the page exports. The document
holds `projects`; each project holds `boards`; each board holds ordered
`columns` of task ids and a `tasks` record keyed by id. This project models
the sequential core of the three programs and proves properties of it.

- **The board page** (`src/app/page.tsx`). The model covers:
  - the active project and board fallback, and the effect that repairs a
    dangling board id;
  - the column lookups;
  - the updaters the handlers pass to `updateBoard`: quick add, WIP-limit
    edit, drag end, draft save and delete;
  - the over-WIP check, the focus-mode filter and the clipboard summary;
  - import validation, the export payload, and the seed board.

  Module `BoardOps` states every updater as a board-to-board function.
  Module `Updaters` gives the updaters that mutate their copies step by
  step (`unshift`, `filter`, `splice`, `push`) as methods with loops. Each
  method is proved equal to its function. Module `KanbanPage` holds a class
  `Page` with one field per `useState` hook the handlers touch. Each handler
  is a method, proved against a pure step function on `PageState`. The
  handlers edit through `updateBoard` as written, which matches the raw
  `activeProjectId` and `activeBoardId`. Its effect on the shown board is
  proved for states whose ids name a project and one of its boards. The
  edit the page evidently means is a separate function (see Findings).
- **The sync agent** (`scripts/sync-agent.js`), in module `SyncAgent`:
  - its configuration;
  - `formatTask`;
  - the summary renderer, first as a function and then as the source runs
    it: a `lines` array grown by `push` inside `forEach` loops;
  - the `readSyncFile` poller, as a class over `lastMtime` and `lastGood`,
    tied to a pure transition `Poll`.
- **The reply tool** (`scripts/jarvis-reply.js`), in module `JarvisReply`:
  - `normalize`;
  - the `resolveTarget` priority chain: the id, then an exact normalised
    title, then a title that contains the query, then the in-progress
    assistant fallback;
  - queue loading, entry construction and the single append, as a method.

The shared parts live in their own modules:

- `Cli`: `getArg` and JavaScript truthiness.
- `Text`: JavaScript `trim`, with its whitespace set; ASCII `toLowerCase`;
  `includes`; `split` and `join`; decimal rendering.
- `Seqs`: `find`, `filter`, `indexOf`, removal, `splice` and dnd-kit's
  `arrayMove`.
- `Kanban`: the data model. The tasks record is a key-order sequence plus a
  map, because `Object.values` order decides the title lookup. The module
  also has the state as the scripts see it (every property optional) and
  `FileActiveProject` / `FileActiveBoard`, the fallback lookups that both
  scripts write out in the same words.
- `Interop`: how the programs meet. The scripts resolve the board the page
  shows, and a reply with no flags, written against the seed board, targets
  the in-progress Jarvis card.

Clocks, random ids, `Number(...)` parsing and file contents are parameters
of the model:

- `now` stands for an ISO time string.
- `newId` stands for `getId()`.
- `nowMs` and `random` stand for `Date.now()` and `Math.random()`.
- Parsed numbers arrive as `Option<real>`, `None` when not finite.
- Files arrive as datatypes listing what a read can find.

## Model

| member | source | states |
|---|---|---|
| Cli.OrElse | scripts/sync-agent.js:13 | `a \|\| b` on optional strings: `a` when truthy, else `b`; the result is truthy iff either is |
| Cli.GetArg | scripts/sync-agent.js:7-11 | the token after the first `--name`; nothing when the flag is absent or last |
| SyncAgent.IntervalMs | scripts/sync-agent.js:14 | `--interval`, else `SYNC_INTERVAL`, else 1500; a value that is not a finite number also gives 1500 (the fallback of line 98) |
| SyncAgent.LoadConfig | scripts/sync-agent.js:13-22 | start-up fails with status 1 exactly when neither `--file` nor `SYNC_FILE` is non-empty; `--file` wins; the output names are `--out` and `--summary` when those are non-empty, else `latest.json` and `summary.md`; the interval is `IntervalMs` |
| SyncAgent.FormatTaskShape | scripts/sync-agent.js:27-32 | the line starts `- title`; ` @assignee` comes right after the title, ` · priority` right after that, and ` · dueDate` ends the line, each only for a non-empty field, and the length counts exactly those parts; the line is the bare `- title` iff all three are empty |
| SyncAgent.ProjectLabel | scripts/sync-agent.js:35-41 | `N/A` when no project resolves; the resolved project's name when it has one; any other label is that name |
| SyncAgent.BoardLabel | scripts/sync-agent.js:36-42 | `N/A` when no board resolves; the resolved board's name when it has one; any other label is that name |
| SyncAgent.HeaderLines | scripts/sync-agent.js:37-46 | six header lines: `# Sync Summary`; `- Project: ` and `- Board: ` with the labels; `- Updated: ` with `exportedAt` when it is non-empty, else the current time; a blank line; `## Columns` |
| SyncAgent.TaskLines | scripts/sync-agent.js:61 | one `formatTask` line per task, in order |
| SyncAgent.RenderColumn | scripts/sync-agent.js:54-63 | the pushes for one column produce exactly `ColumnBlock` |
| SyncAgent.RenderColumns | scripts/sync-agent.js:53-64 | the `forEach` over the columns produces every block in column order |
| SyncAgent.RenderSummary | scripts/sync-agent.js:34-67 | the imperative renderer returns exactly `Summary(doc, now)` |
| SyncAgent.SummaryNoData | scripts/sync-agent.js:48-51 | without a resolved board, or without its `columns` or `tasks`, the summary is the six header lines plus `- No data` (seven lines) |
| SyncAgent.ColumnBlockShape | scripts/sync-agent.js:53-64 | the heading is `### title (n)`, where n counts the ids the record resolves; then `- (empty)` when n = 0, else the n task lines in column order; the block ends with "" |
| SyncAgent.ColumnsLinesConcat | scripts/sync-agent.js:53-64 | the blocks of concatenated column lists are the concatenated blocks, so every column contributes in order |
| SyncAgent.ColumnsLinesSingle | scripts/sync-agent.js:53-64 | a single column contributes exactly its block |
| SyncAgent.DocOf | scripts/sync-agent.js:35-37 | an object is read as its document; a primitive or an array has no `projects` and no `exportedAt` |
| SyncAgent.WriteOutputs | scripts/sync-agent.js:69-74 | the mirror always holds the value; a summary is written exactly when the value is not `null`, and for an object it is `Summary` of its document |
| SyncAgent.Republish | scripts/sync-agent.js:89-93 | the `catch` rewrites the outputs exactly when `lastGood` is truthy, from `lastGood` and with a summary |
| SyncAgent.Poll | scripts/sync-agent.js:76-95 | one cycle never lowers `lastMtime`; the state changes only for a newer file that parses, and then becomes that file's mtime and value, whatever the value |
| SyncAgent.SyncPoller.constructor | scripts/sync-agent.js:24-25 | starts with `lastMtime = 0` and `lastGood = null` |
| SyncAgent.SyncPoller.ReadSyncFile | scripts/sync-agent.js:76-95 | the fields and the outputs written are those of `Poll` on the old fields; the invariant "`lastMtime` is never negative, and `lastGood` is `null` while `lastMtime` is 0" is kept |
| SyncAgent.PollConsistent | scripts/sync-agent.js:76-95 | one cycle preserves that invariant |
| SyncAgent.PollMissing | scripts/sync-agent.js:78-81 | a missing file writes nothing and changes nothing |
| SyncAgent.PollNotNewer | scripts/sync-agent.js:82-83 | a file whose mtime is at most `lastMtime` is skipped entirely |
| SyncAgent.PollFresh | scripts/sync-agent.js:84-88 | a newer file that parses becomes `lastGood` with its mtime and is mirrored; an object is summarised as its document, a primitive or an array as the `- No data` summary under the current time, and `null` gets no summary |
| SyncAgent.PrimitiveSummary | scripts/sync-agent.js:34-51 | a primitive or an array resolves no project or board and has no `exportedAt`: seven lines naming `N/A` twice, the current time, and `- No data` |
| SyncAgent.PollFailure | scripts/sync-agent.js:89-94 | a failed stat, read or parse leaves the state unchanged; outputs are rewritten exactly when `lastGood` is truthy, and then from it |
| SyncAgent.NullDropsSnapshot | scripts/sync-agent.js:85-93 | a newer file holding `null` replaces even a good snapshot: the mirror becomes `null`, no summary is written, and a later failed read republishes nothing |
| SyncAgent.RunMonotone | scripts/sync-agent.js:82-88 | over any sequence of cycles `lastMtime` never decreases and the invariant holds |
| SyncAgent.PollAgainSkips | scripts/sync-agent.js:83-86 | after a cycle that saw a parseable file, a file with the same mtime is skipped and nothing is written |
| SyncAgent.PollRetriesAfterFailure | scripts/sync-agent.js:84-86 | a failed parse leaves `lastMtime`, so the same file is taken on the next good read |
| SyncAgent.RunKeepsSnapshot | scripts/sync-agent.js:84-93 | a truthy snapshot stays truthy over any run in which no file parses to `null` or a falsy value, so every later failure still republishes |
| JarvisReply.Normalize | scripts/jarvis-reply.js:24 | the result is trimmed and has no capital letter; it is empty iff the value is missing or blank; it is no longer than the value |
| JarvisReply.NormalizeIdempotent | scripts/jarvis-reply.js:24 | normalising twice is normalising once |
| JarvisReply.NormalizeIgnoresCase | scripts/jarvis-reply.js:24 | lowercasing the value first changes nothing, so queries and titles match regardless of case |
| JarvisReply.NormalizeSlice | scripts/jarvis-reply.js:24 | the result is exactly the trimmed slice of the value, each character lowercased: as long as `Trim(s)`, with the character at position k the lowercase of `s[TrimOffset(s) + k]` |
| JarvisReply.LatestAssistantTask | scripts/jarvis-reply.js:49-57 | found iff `col-progress` exists and one of its resolved tasks is assigned to Jarvis; that task is the last such one, in column order |
| JarvisReply.FirstExact | scripts/jarvis-reply.js:38-41 | the first task in record order whose normalised title equals the query; none iff there is no such task |
| JarvisReply.FirstFuzzy | scripts/jarvis-reply.js:43-46 | the first task whose normalised title contains the query; none iff there is none, which implies there is no exact match either |
| JarvisReply.ResolveIn | scripts/jarvis-reply.js:35-60 | the chain, in order: a `--taskId` in the record; else, with a title, the first exact match, then the first containing one; else the progress fallback |
| JarvisReply.ResolveTarget | scripts/jarvis-reply.js:26-64 | null for a missing or unreadable file, an unresolved board, or a board without `columns` or `tasks`; otherwise `ResolveIn` on the resolved board |
| JarvisReply.ExactBeatsEarlierFuzzy | scripts/jarvis-reply.js:38-46 | when some title equals the query, the chosen title normalises to the query, even if a containing title comes earlier |
| JarvisReply.BlankTitleTakesFirstTask | scripts/jarvis-reply.js:43-46 | a blank `--title` (normalised to "") picks the first task of the record when no title is blank |
| JarvisReply.UnknownIdFallsBack | scripts/jarvis-reply.js:35 | an unknown `--taskId` does not stop the chain; with no title the progress fallback decides |
| JarvisReply.LoadedQueue | scripts/jarvis-reply.js:71-78 | the parsed array when there is one, else the empty queue |
| JarvisReply.ReplyId | scripts/jarvis-reply.js:83 | the id starts with `reply-` |
| JarvisReply.NewEntry | scripts/jarvis-reply.js:82-90 | the id and title come from the resolved target, else from `--taskId` and `--title`; `markComplete` holds iff `--complete` is among the arguments |
| JarvisReply.Submit | scripts/jarvis-reply.js:13-92 | a usage error (status 1, nothing written) exactly when the sync file or the message is missing; a crash exactly when the queue file holds a non-array; otherwise the old queue plus one new entry |
| Kanban.TaskRecord.Get | src/app/page.tsx:172 | a task exactly for the keys in the record |
| Kanban.TaskRecord.Put | src/app/page.tsx:527 | the key maps to the new task and every other key is unchanged; an existing key keeps its position, a new key goes last |
| Kanban.TaskRecord.Remove | src/app/page.tsx:848 | the key is gone, every other key is unchanged, and the key order loses only that key |
| Kanban.TaskRecord.Values | scripts/jarvis-reply.js:38 | the tasks, in key order |
| Kanban.ValuesOf | scripts/jarvis-reply.js:38 | with every key present, the map's values in key order |
| Kanban.FindColumnByTask | src/app/page.tsx:489-490 | found iff some column lists the id; it is the first such column |
| Kanban.GetColumnById | src/app/page.tsx:492-493 | found iff a column has the id; the result is the first column with it |
| Kanban.TodoColumnId | src/app/page.tsx:514-516 | `col-todo` when present, else the first column's id, and none without columns |
| Kanban.ResolvedTasks | src/app/page.tsx:1116-1118 | at most one task per id, each the record's task for a listed id; when every id resolves, exactly their tasks in column order; none when no id does |
| Kanban.ResolvedTasksConcat | src/app/page.tsx:1116-1118 | resolving concatenated id lists concatenates the results |
| Kanban.FileActiveProject | scripts/sync-agent.js:35 | the first project with `activeProjectId`, else the first project; none without projects |
| Kanban.FileActiveBoard | scripts/sync-agent.js:36 | within the resolved project, the first board with `activeBoardId`, else its first board |
| Seqs.FindIndex | src/app/page.tsx:759 | the index form of `find`: the first position satisfying the test; none iff no element does |
| Seqs.Find | src/app/page.tsx:490 | `find`: found iff some element satisfies the test; then the element at `FindIndex` |
| Seqs.FindOrFirst | scripts/sync-agent.js:35 | `find(p) \|\| s[0]`: the first match, else the first element |
| Seqs.IndexOf | src/app/page.tsx:767-768 | `indexOf`: the first position of the value, none iff it is absent |
| Seqs.RemoveAll | src/app/page.tsx:773-774 | `filter((id) => id !== x)`: the value is gone and every other value keeps its count |
| Seqs.RemoveAllConcat | src/app/page.tsx:773-774 | filtering a concatenation filters each part |
| Seqs.InsertAt | src/app/page.tsx:777 | `splice(i, 0, x)`: `x` at `i`, the prefix kept and the rest shifted by one |
| Seqs.ArrayMove | src/app/page.tsx:770 | `arrayMove`: a permutation that puts the moved element at `to` |
| Seqs.ArrayMoveAt | src/app/page.tsx:770 | where every other element of `arrayMove` ends up |
| Seqs.Filter | scripts/jarvis-reply.js:51-53 | keeps exactly the matching elements; its last element is the last match |
| Seqs.FilterSnoc | scripts/jarvis-reply.js:51-53 | appending an element appends it to the result exactly when it matches |
| Seqs.FilterConcat | scripts/jarvis-reply.js:51-53 | filtering a concatenation filters each part, so the kept elements keep their order |
| Seqs.FindLastIndex | scripts/jarvis-reply.js:55 | the last match: nothing after it matches |
| Text.TrimStart | scripts/jarvis-reply.js:24 | drops exactly the leading JavaScript whitespace |
| Text.TrimEnd | scripts/jarvis-reply.js:24 | drops exactly the trailing JavaScript whitespace |
| Text.TrimKeepsOnly | scripts/jarvis-reply.js:24 | trimming introduces no character |
| Text.Trim | scripts/jarvis-reply.js:24 | the result is trimmed; it is empty iff the input is blank; a trimmed input is unchanged |
| Text.TrimSlice | scripts/jarvis-reply.js:24 | the trimmed string is the slice of the input that has only whitespace before and after it |
| Text.Lower | scripts/jarvis-reply.js:24 | lowercases each character in place |
| Text.LowerIdempotent | scripts/jarvis-reply.js:24 | lowercasing twice is lowercasing once |
| Text.LowerKeepsSpace | scripts/jarvis-reply.js:24 | lowercasing keeps a trimmed string trimmed and a blank string blank |
| Text.LowerTrimStart | scripts/jarvis-reply.js:24 | lowercasing and dropping leading whitespace commute |
| Text.LowerTrimEnd | scripts/jarvis-reply.js:24 | lowercasing and dropping trailing whitespace commute |
| Text.LowerTrim | scripts/jarvis-reply.js:24 | lowercasing and trimming commute |
| Text.Contains | scripts/jarvis-reply.js:44 | `includes`: true iff the text occurs at some position |
| Text.ContainsTrivial | scripts/jarvis-reply.js:44 | every string contains "" and itself |
| Text.IndexOfChar | src/app/page.tsx:817 | the first position of the character; none only when it is absent |
| Text.Split | src/app/page.tsx:816-817 | `split(",")`: pieces without commas whose join is the input |
| Text.SplitJoin | src/app/page.tsx:796 | splitting the comma join of comma-free pieces gives them back |
| Text.NatToString | scripts/sync-agent.js:57 | a non-empty string of decimal digits with no leading zero: it starts with `0` only for 0, and is then `"0"` |
| Text.NatToStringRoundTrip | src/app/page.tsx:544 | reading the digits back gives the number |
| Text.IntToString | src/app/page.tsx:544 | `String(n)`: a sign exactly for negatives, then digits denoting the magnitude, with no leading zero (only 0 itself starts with `0`) |
| BoardOps.IdIndexOrFirst | src/app/page.tsx:525 | `find(id) ?? columns[0]`, as an index: the first match, else 0, else none |
| BoardOps.ActiveProjectIndex | src/app/page.tsx:475 | the first project with the id, else 0; none without projects |
| BoardOps.ActiveBoardIndex | src/app/page.tsx:477 | the first board with the id, else 0; none without boards |
| BoardOps.ActiveProject | src/app/page.tsx:475 | the project at `ActiveProjectIndex` |
| BoardOps.ActiveBoard | src/app/page.tsx:476-479 | the board at `ActiveBoardIndex` inside the active project; none when that project has no boards |
| BoardOps.ActiveBoardMatching | src/app/page.tsx:475-478 | when both ids match (first matches), those are the active project and board |
| BoardOps.RepairedBoardId | src/app/page.tsx:467-473 | a board id the active project has is kept; otherwise its first board's id, or "" without boards |
| BoardOps.RepairResolves | src/app/page.tsx:467-473 | after the repair the id names a board of the active project, and the shown board does not change |
| BoardOps.VisibleColumns | src/app/page.tsx:481-483 | all columns, or in focus mode exactly those whose id is not `col-done`; a lone column stays iff it is not `col-done` |
| BoardOps.VisibleColumnsConcat | src/app/page.tsx:481-483 | the focus filter works column by column, so the visible columns keep the board's order |
| BoardOps.DistinctIndex | src/app/page.tsx:525 | with distinct column ids, a column's id finds that column |
| BoardOps.PrependAt | src/app/page.tsx:536 | `unshift` on one column: the id goes first there and every other column is unchanged |
| BoardOps.PrependPlacement | src/app/page.tsx:536 | prepending a card listed nowhere lists it exactly once, leaves every other count alone, and keeps "each card at most once" |
| BoardOps.QuickTask | src/app/page.tsx:527-535 | the new task has the trimmed title, the picked assignee and priority, an empty description, no tags and no due date |
| BoardOps.QuickAdd | src/app/page.tsx:522-538 | the id is recorded with its task; column ids, board id and board name are kept |
| BoardOps.QuickAddPlaces | src/app/page.tsx:522-538 | the new task is recorded, every other key is unchanged, it goes first in the target column (else the first column), and every other column is unchanged |
| BoardOps.QuickAddWellFormed | src/app/page.tsx:522-538 | with a fresh id the board stays well formed and the card is listed exactly once |
| BoardOps.WipLimitFrom | src/app/page.tsx:553-557 | no limit for a missing or non-positive value; otherwise its floor |
| BoardOps.SetWipLimit | src/app/page.tsx:550-560 | only the columns with the edited id change, and only their limit; tasks are untouched |
| BoardOps.IsOverWip | src/app/page.tsx:1119-1120 | over iff the limit is positive and the resolved tasks outnumber it |
| BoardOps.SetWipLimitOverWip | src/app/page.tsx:549-558 | a cleared limit, or one below 1 (floored to 0), is never over; otherwise the column is over iff its resolved tasks exceed the floor |
| BoardOps.SetWipLimitWellFormed | src/app/page.tsx:550-560 | a limit edit keeps the board well formed |
| BoardOps.PlaceBefore | src/app/page.tsx:775-780 | the card is inserted right before the card dropped on, when that card is there, else appended; nothing else moves |
| BoardOps.MoveWithin | src/app/page.tsx:766-771 | a same-column move is `arrayMove` of that column and nothing else changes |
| BoardOps.MoveAcross | src/app/page.tsx:772-781 | the card is filtered out of source and target, then placed in the target; other columns are unchanged |
| BoardOps.DragUpdate | src/app/page.tsx:757-784 | the drag updater keeps the tasks, the board id and name, and the column ids |
| BoardOps.DragWithinColumn | src/app/page.tsx:766-771 | a drop on a task of the same column permutes it, puts the card where the target was, and changes no other column |
| BoardOps.PlaceBeforeRemove | src/app/page.tsx:775-780 | placing a card that was absent lists it once, and removing it again restores the list |
| BoardOps.InsertRemove | src/app/page.tsx:777 | removing an inserted fresh id gives the list back |
| BoardOps.DragAcrossColumns | src/app/page.tsx:772-781 | the card leaves the source and appears once in the target, right before `overId` when that card is there, else last; the other target cards keep their order and no other column changes |
| BoardOps.DragUpdateWellFormed | src/app/page.tsx:757-784 | dragging a listed card keeps the board well formed and every card's count |
| BoardOps.MoveWithinCounts | src/app/page.tsx:770 | a same-column move keeps every card's count |
| BoardOps.MoveAcrossCounts | src/app/page.tsx:772-781 | a cross-column move of a card listed once keeps every card's count |
| BoardOps.DragColumns | src/app/page.tsx:745-755 | the guards: nothing without a target, for a drop on itself, or when the source or target column is not found; otherwise the source and target column ids |
| BoardOps.DragEnd | src/app/page.tsx:745-786 | without a target, on itself, or when the card is in no column, the drag does nothing |
| BoardOps.DragOntoOwnColumn | src/app/page.tsx:762-764 | dropping a card onto its own column leaves the board as it was |
| BoardOps.DragEndWellFormed | src/app/page.tsx:745-786 | a drag that happens keeps the board well formed and the card listed exactly once |
| BoardOps.TrimAll | src/app/page.tsx:818 | each piece trimmed |
| BoardOps.ParseTags | src/app/page.tsx:816-819 | the tags are non-empty, trimmed and comma-free; a blank field gives no tags |
| BoardOps.ParseTagsPiece | src/app/page.tsx:816-819 | a field without commas gives its trimmed text as the only tag, or nothing when blank |
| BoardOps.ParseTagsConcat | src/app/page.tsx:816-819 | the tags of the text before the first comma come first, then those of the rest: the tags are the trimmed non-blank pieces in order |
| BoardOps.TagsRoundTrip | src/app/page.tsx:796 | joining normal tags with commas and parsing them back gives the same tags |
| BoardOps.OpenDraft | src/app/page.tsx:788-799 | the empty form for the column (assignee `Jarvis`, priority `medium`); for a task, the given column and the task's id, title, description, assignee, priority and due date, with its tags comma-joined |
| BoardOps.DraftTask | src/app/page.tsx:810-821 | the task gets the given id, the draft's title, description, assignee, priority and due date, and its parsed tags |
| BoardOps.SaveDraftUpdate | src/app/page.tsx:804-840 | a draft with an id overwrites that task and leaves the columns; the same column ids always |
| BoardOps.SaveNewDraft | src/app/page.tsx:822-837 | a new draft is recorded under the new id, goes first in its column (else the first), and nothing else changes |
| BoardOps.SaveDraftWellFormed | src/app/page.tsx:804-840 | saving an edit, or a new draft with a fresh id, keeps the board well formed |
| BoardOps.OpenSaveRoundTrip | src/app/page.tsx:788-840 | opening a recorded task with normal tags and saving it unchanged gives the same board |
| BoardOps.DeleteTask | src/app/page.tsx:846-853 | the task leaves the record and every column loses exactly that id |
| BoardOps.OccurrencesRemoveAll | src/app/page.tsx:849-852 | after removing the id from every column it is listed nowhere, and every other count is unchanged |
| BoardOps.DeleteTaskEffect | src/app/page.tsx:846-853 | the task is gone, listed nowhere, every other task and count is unchanged, and well-formedness is kept |
| BoardOps.CopyTaskLine | src/app/page.tsx:729-731 | `- title`, then ` (@assignee)` right after the title exactly when there is an assignee, and nothing else |
| BoardOps.CopySection | src/app/page.tsx:721-733 | `## title` and a newline, then `- <empty label>` when the column resolves no task, else the copy lines of its resolved tasks, in column order, joined by newlines |
| BoardOps.CopySummaryParts | src/app/page.tsx:719-735 | the title paragraph `# project / board`, then one section per column, in order |
| BoardOps.CopySummaryShapes | src/app/page.tsx:719-736 | a board without columns copies as its title alone; an empty column as its heading plus the empty label |
| BoardOps.Import | src/app/page.tsx:695-716 | rejected iff unparseable or `projects` is missing or empty; otherwise the projects are replaced and each other setting is taken only when present (the ids only when non-empty) |
| Kanban.BoardsToFile | src/app/page.tsx:590 | each board serialised in order, with its columns, tasks and name |
| Kanban.ProjectsToFile | src/app/page.tsx:590 | each project serialised in order, with its id and boards |
| BoardOps.ExportFile | src/app/page.tsx:565-573 | the payload carries the projects |
| BoardOps.ExportImportRoundTrip | src/app/page.tsx:565-573 | importing an export restores the exported state, whatever the state it lands in |
| BoardOps.ExportDocument | src/app/page.tsx:586-593 | the sync payload as the scripts read it: the projects, `exportedAt` and both ids |
| BoardOps.ExportedProjectIndex | scripts/sync-agent.js:35 | on an export, the scripts' project fallback picks the project the page picks |
| BoardOps.ExportedBoardIndex | scripts/sync-agent.js:36 | on an export, the scripts' board fallback picks the board the page picks |
| BoardOps.FileBoardOfProject | scripts/sync-agent.js:36 | once the export of a project is picked, the board picked in it is the page's board |
| BoardOps.ExportedActiveBoard | scripts/sync-agent.js:35-36 | the scripts resolve, in the export, exactly the board the page shows |
| BoardOps.Apply | src/app/page.tsx:495-507 | no updater renames the board or changes its column ids |
| BoardOps.ApplyWellFormed | src/app/page.tsx:522-856 | every updater keeps the board well formed, given a fresh new id and a drag of a listed card |
| BoardOps.UpdateBoards | src/app/page.tsx:501-503 | the updater runs on each board with the id, and every other board is unchanged |
| BoardOps.UpdateBoard | src/app/page.tsx:495-507 | `updateBoard` as written: only projects whose id is exactly `activeProjectId` change, and only their boards with `activeBoardId` |
| BoardOps.DanglingProjectChangesNothing | src/app/page.tsx:498 | with no project of that id, `updateBoard` changes nothing |
| BoardOps.LostEditExample | src/app/page.tsx:475-507 | a concrete state where the page shows a board but deleting its card through `updateBoard` changes nothing |
| BoardOps.UpdateActiveBoard | src/app/page.tsx:495-507 | the corrected `updateBoard`; keeps the project ids, and changes nothing when no board is shown |
| BoardOps.UpdateActiveBoardEffect | src/app/page.tsx:495-507 | after an edit, the shown board is exactly the edited shown board, and projects with another id are untouched |
| BoardOps.SameIdsSameProjectIndex | src/app/page.tsx:475 | which project is active depends only on the project ids |
| BoardOps.SameIdsSameBoardIndex | src/app/page.tsx:477 | which board is active depends only on the board ids |
| BoardOps.UpdateActiveBoardAgrees | src/app/page.tsx:495-507 | when both ids match, the corrected update is `updateBoard` itself |
| BoardOps.ColumnTitles | src/app/page.tsx:205-209 | four column titles per language |
| BoardOps.DefaultBoard | src/app/page.tsx:181-216 | the seed board `board-1` with columns `col-todo`, `col-progress`, `col-review`, `col-done` |
| BoardOps.DefaultProject | src/app/page.tsx:218-222 | the project `project-1` holding the seed board |
| BoardOps.DefaultBoardWellFormed | src/app/page.tsx:181-216 | the seed board is well formed: a consistent task record, no card listed twice, distinct column ids |
| BoardOps.DefaultBoardUnderWip | src/app/page.tsx:206-209 | no seed column is over its limit |
| BoardOps.DefaultBoardShown | src/app/page.tsx:378-380 | the initial ids show the seed board |
| BoardOps.DragEditFor | src/app/page.tsx:745-786 | the handler passes an updater iff the drag happens, and running it gives `DragEnd` |
| KanbanPage.WipDraftOf | src/app/page.tsx:544 | empty iff there is no limit or it is 0; for a positive limit, digits without a leading zero that read back as the limit |
| KanbanPage.Edited | src/app/page.tsx:495-507 | `updateBoard` as written keeps the number and ids of the projects and changes no other page field |
| KanbanPage.EditedShows | src/app/page.tsx:495-507 | when the raw ids name a project and one of its boards, the shown board becomes the edited board |
| KanbanPage.EditedNoTarget | src/app/page.tsx:495-507 | when no project with the raw id has a board with the raw board id, the edit changes nothing |
| KanbanPage.IntendedEdited | src/app/page.tsx:475-507 | the corrected edit keeps the project ids and every other field, and changes nothing without a shown board |
| KanbanPage.IntendedEditedShows | src/app/page.tsx:475-507 | the corrected edit always turns the shown board into the edited board |
| KanbanPage.IntendedEditedAgrees | src/app/page.tsx:475-507 | where the raw ids resolve, the corrected edit is `updateBoard` as written |
| KanbanPage.AddQuickTaskStep | src/app/page.tsx:518-540 | blank title or no target column: no change; otherwise the title box clears and only the projects change besides; the shown board gets the quick task when the raw ids resolve, and no project changes when they find nothing |
| KanbanPage.StartEditWipStep | src/app/page.tsx:542-545 | opens the editor on the column with its limit as text; nothing else changes |
| KanbanPage.WipValue | src/app/page.tsx:549 | a blank draft is not a number; otherwise the parsed value |
| KanbanPage.SaveWipLimitStep | src/app/page.tsx:547-563 | no open editor: no change; otherwise the editor closes; the shown board gets the limit when the raw ids resolve, and no project changes when they find nothing |
| KanbanPage.HandleDragEndStep | src/app/page.tsx:745-786 | a drag that returns early changes nothing; otherwise the overlay clears; the shown board becomes `DragEnd`'s when the raw ids resolve, and no project changes when they find nothing |
| KanbanPage.OpenDraftStep | src/app/page.tsx:788-799 | sets the draft and nothing else |
| KanbanPage.SaveDraftStep | src/app/page.tsx:801-842 | no draft or a blank title: no change; otherwise the editor closes; the shown board gets the draft when the raw ids resolve, and no project changes when they find nothing |
| KanbanPage.DeleteDraftStep | src/app/page.tsx:844-856 | only a draft with an id deletes; the editor then closes; the task leaves the shown board when the raw ids resolve, and no project changes when they find nothing |
| KanbanPage.ImportDataStep | src/app/page.tsx:695-716 | a rejected file only sets the "import failed" notice; an accepted one replaces the exported part of the state and keeps the rest |
| KanbanPage.RepairStep | src/app/page.tsx:467-473 | only the board id changes; the shown board stays the same and the id names one of its project's boards |
| KanbanPage.Page.Visible | src/app/page.tsx:481-483 | columns exist iff a board is shown; they are the focus filter of its columns, and all of them outside focus mode |
| KanbanPage.Page.CopyText | src/app/page.tsx:718-736 | there is clipboard text iff a board is shown, and it is `CopySummary` of that board under the active project's name |
| KanbanPage.Page.constructor | src/app/page.tsx:376-390 | the initial fields, which show the seed board |
| KanbanPage.Page.RepairActiveBoard | src/app/page.tsx:467-473 | the fields become `RepairStep` of the old ones |
| KanbanPage.Page.AddQuickTask | src/app/page.tsx:518-540 | the fields become `AddQuickTaskStep` of the old ones; a project remains |
| KanbanPage.Page.StartEditWip | src/app/page.tsx:542-545 | the fields become `StartEditWipStep` of the old ones |
| KanbanPage.Page.SaveWipLimit | src/app/page.tsx:547-563 | the fields become `SaveWipLimitStep` of the old ones |
| KanbanPage.Page.HandleDragEnd | src/app/page.tsx:745-786 | the fields become `HandleDragEndStep` of the old ones |
| KanbanPage.Page.OpenDraft | src/app/page.tsx:788-799 | the fields become `OpenDraftStep` of the old ones |
| KanbanPage.Page.SaveDraft | src/app/page.tsx:801-842 | the fields become `SaveDraftStep` of the old ones |
| KanbanPage.Page.DeleteDraft | src/app/page.tsx:844-856 | the fields become `DeleteDraftStep` of the old ones |
| KanbanPage.Page.ImportData | src/app/page.tsx:695-716 | the fields become `ImportDataStep` of the old ones; a project remains |
| Updaters.FindColumn | src/app/page.tsx:759 | the loop finds the first column with the id, as `IndexOf` on the column ids |
| Updaters.FindColumnOrFirst | src/app/page.tsx:525 | `find(...) ?? columns[0]` as a loop, equal to `IdIndexOrFirst` |
| Updaters.IndexOfId | src/app/page.tsx:775 | the `indexOf` loop equals `IndexOf` |
| Updaters.FilterOut | src/app/page.tsx:773-774 | the filter loop equals `RemoveAll` |
| Updaters.AddQuickTaskUpdater | src/app/page.tsx:522-538 | the mutating updater builds exactly `QuickAdd` |
| Updaters.DragUpdater | src/app/page.tsx:757-784 | the mutating updater builds exactly `DragUpdate` |
| Updaters.SaveDraftUpdater | src/app/page.tsx:804-840 | the mutating updater builds exactly `SaveDraftUpdate` |
| Updaters.DeleteUpdater | src/app/page.tsx:846-853 | the mutating updater builds exactly `DeleteTask` |
| Interop.SeedLatestAssistantTask | scripts/jarvis-reply.js:49-57 | on the seed board the fallback picks `task-2` |
| Interop.ReplyTargetOfExport | scripts/jarvis-reply.js:31-35 | in the page's export, the reply tool resolves on the board the page shows |
| Interop.SeedReplyTarget | scripts/jarvis-reply.js:26-64 | a reply with neither `--taskId` nor `--title`, against the seed export, targets `task-2` |

## Left out

- electron/main.js is not part of this model. It is process supervision: spawning, port probing, dialogs, menus and config files.
- File system, JSON parsing and serialisation are not modelled. What a read finds is a datatype; a document's text and its formatting are not modelled. The directory creation and console messages of both scripts are left out too.
- Timers are not modelled: the agent's `setInterval`, the page's auto-sync debounce and the notice timeout. Each poll cycle is one call, and a notice is a field that is only ever set.
- Clocks and random numbers are parameters, as described above.
- `Number(...)` is a parameter: a finite value or `None`. The WIP draft takes an `Option<real>`, the interval a function from text to value.
- React rendering, dnd-kit sensors and the overlay are not modelled; `activeTaskId` is only cleared.
- The i18n tables are not modelled, except the column titles, the empty-column label and the import-failed notice.
- localStorage persistence and its load effect (src/app/page.tsx:403-465) are not modelled: they are browser effects.
- The File System Access sync (`writeSyncFile`, `connectSyncFile`) is not modelled; only its payload is (`ExportDocument`).
- The download link of `exportData` and the clipboard write and alert of `copySummary` are left out. Their payload and text are modelled.
- Adding projects and boards through `window.prompt` (`addProject`, `addBoard`) is not modelled. Each handler sets the active ids itself: `addProject` sets both to the new project and its seed board (src/app/page.tsx:866-868), and `addBoard` sets `activeBoardId` to the new board (line 881). `addBoard` appends only to a project whose id is exactly `activeProjectId` (line 877), so it shares the raw-id defect under Findings.
- Text.Lower: lowercases ASCII letters only; JavaScript's Unicode case mapping is not modelled.
- Kanban.TaskRecord.Values: keys come back in insertion order; JavaScript lists integer-like keys first, and that is not modelled.
- BoardOps.Import: the file's `projects` are taken as typed projects. The source accepts any non-empty array without checking its elements. `theme` and `lang` are enumerations here, while the source takes any truthy value (src/app/page.tsx:711-712). An unknown `lang` leaves `i18n[lang]` undefined (line 399), so the next render fails; an unknown `theme` renders as light, since only `"dark"` is tested (line 441).
- Kanban.TaskRecord.Get: a record holds only its own keys. In the source `tasks[key]` on a parsed object also finds `Object.prototype` members such as `constructor` or `toString`. So `--taskId constructor` is taken as found by the reply tool (scripts/jarvis-reply.js:35), which returns that id with no title, while `JarvisReply.ById` is false and the chain goes on. An id like `toString` in a column also counts as a task in `ResolvedTasks` (src/app/page.tsx:1116-1120) and in the summaries.
- SyncAgent.Summary: documents are typed, so a column without `taskIds` cannot occur. In the source such a column makes `renderSummary` throw after `lastGood` was set and `latest.json` written. The `catch` then renders the same document again, that second throw escapes `readSyncFile`, and the agent stops.
- SyncAgent.Json: parsed values are told apart only as `null`, falsy, truthy primitive or array, and object. Their JSON text in the mirror is not modelled, and an array is read as having no properties.
- SyncAgent.LoadConfig: the output names are resolved against `.sync` under the working directory (scripts/sync-agent.js:15-17); path resolution is not modelled.
- SyncAgent.Poll: failures of the output writes are not modelled. In the source they also land in the `catch`.
- JarvisReply.ResolveTarget: the `catch` that turns other exceptions into null is modelled only for a file that cannot be read or parsed.
- BoardOps.ActiveBoard: is `None` when the active project has no boards. The source then crashes on `activeBoard.columns`.
- BoardOps.DragUpdate: when a column vanished between the handler and the updater, the source's `!` assertions (src/app/page.tsx:759-760) fail. The model leaves the board unchanged.
- Updaters.AddQuickTaskUpdater: arrays are values here. In the source the `{ ...col }` copies share their `taskIds` arrays with the previous state, so `unshift` (src/app/page.tsx:536) also changes the old board. When React runs an updater twice, as StrictMode does in development, each run calls `getId()` (line 526), and the shared column can end up listing a second id that has no task. The model neither shares arrays nor runs an updater twice.
- Updaters.SaveDraftUpdater: the same sharing applies to a new draft: `getId()` at src/app/page.tsx:822 and `unshift` into the shared array at line 836.
- BoardOps.SaveDraftUpdate: a new draft on a board without columns makes the source throw at `unshift`. The model changes nothing.
- No automatic triage or consumption of the reply queue is modelled: no code in these files does either.

Where the written design of the system and its code differ, the model follows the code:

- A missing sync file makes the agent write nothing. It does not republish its last snapshot.
- A newer sync file that parses to `null` replaces the snapshot. The mirror becomes `null`, no summary is written, and later failed reads republish nothing. Other falsy values (`false`, `0`, `""`) also replace it and are never republished. Primitives and arrays are mirrored with a `- No data` summary.
- A reply queue file holding valid JSON that is not an array makes the reply tool crash at `push`. It is not treated as an empty queue.
- Tags are not deduplicated.
- The reply target is resolved when the reply is submitted.

## Findings

| source | as written | input that shows it | evidently intended | confidence | as-written member | corrected member |
|---|---|---|---|---|---|---|
| src/app/page.tsx:495-507 | `updateBoard` edits only a project whose id equals the raw `activeProjectId`, while the page shows `projects[0]` when no project has that id (line 475); `addBoard` (line 877) matches the raw id the same way | import a file whose projects are `[p2]` and which has no `activeProjectId`: the id stays `project-1`, the page shows `p2`'s board, and every quick add, drag, WIP edit, save and delete on it is silently dropped | edit the board the page shows: resolve the project and the board with the same fallbacks as the display | not executed | BoardOps.UpdateBoard, BoardOps.LostEditExample, KanbanPage.EditedNoTarget | BoardOps.UpdateActiveBoard, BoardOps.UpdateActiveBoardEffect, KanbanPage.IntendedEdited, KanbanPage.IntendedEditedShows |
