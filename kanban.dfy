/**
 * The board document shared by the web UI and the two companion scripts:
 * projects hold boards, a board holds ordered columns of task ids and a
 * record mapping task ids to tasks.  The UI works on the typed shape
 * (`Project`, `Board`); the scripts read the same JSON file, in which any
 * of the nested properties may be missing (`FileDocument`).
 */
module Kanban {
  import opened Wrappers
  import opened Seqs

  datatype Task = Task(
    id: string,
    title: string,
    description: string,
    assignee: string,
    priority: string,       // "low" | "medium" | "high" in the UI's type
    tags: seq<string>,
    dueDate: string)        // "" when there is none

  datatype Column = Column(
    id: string,
    title: string,
    taskIds: seq<string>,
    wipLimit: Option<int>)  // the optional `wipLimit` property

  /** A JavaScript object used as a record from task ids to tasks: the
      entries, plus the order in which the keys were inserted, which is the
      order `Object.values` lists them in. */
  datatype TaskRecord = TaskRecord(keys: seq<string>, entries: map<string, Task>)
  {
    /** Every key listed once, and exactly the keys that have entries. */
    ghost predicate Valid()
    {
      && (forall i, j :: 0 <= i < j < |keys| ==> keys[i] != keys[j])
      && (forall k :: k in entries <==> k in keys)
    }

    /** `record[key]`, `undefined` becoming `None`. */
    function Get(key: string): (r: Option<Task>)
      ensures r.Some? <==> key in entries
      ensures r.Some? ==> r.value == entries[key]
    {
      if key in entries then Some(entries[key]) else None
    }

    /** `record[key] = t`: an existing key keeps its place, a new key goes
        last, and no other entry changes. */
    function Put(key: string, t: Task): (r: TaskRecord)
      ensures r.Get(key) == Some(t)
      ensures forall k :: k != key ==> r.Get(k) == Get(k)
      ensures key in entries ==> r.keys == keys
      ensures key !in entries ==> r.keys == keys + [key]
      ensures Valid() ==> r.Valid()
    {
      TaskRecord(if key in entries then keys else keys + [key], entries[key := t])
    }

    /** `delete record[key]`: that key is gone, every other entry and the
        order of the remaining keys are kept. */
    function Remove(key: string): (r: TaskRecord)
      ensures r.Get(key) == None
      ensures forall k :: k != key ==> r.Get(k) == Get(k)
      ensures r.keys == RemoveAll(keys, key)
      ensures Valid() ==> r.Valid()
    {
      var r := TaskRecord(RemoveAll(keys, key), entries - {key});
      assert Valid() ==> r.Valid() by {
        if Valid() {
          RemoveAllKeepsDistinct(keys, key);
          forall k ensures k in r.entries <==> k in r.keys {
            assert k in r.keys <==> multiset(r.keys)[k] > 0;
          }
        }
      }
      r
    }

    /** `Object.values(record)`: the tasks in key order. */
    function Values(): (r: seq<Task>)
      ensures Valid() ==> |r| == |keys|
      ensures Valid() ==> forall i :: 0 <= i < |keys| ==> r[i] == entries[keys[i]]
    {
      ValuesOf(keys, entries)
    }
  }

  /** The entries of `m` for the keys of `ks` it has, in the order of `ks`. */
  function ValuesOf(ks: seq<string>, m: map<string, Task>): (r: seq<Task>)
    ensures (forall k :: k in ks ==> k in m) ==> |r| == |ks|
    ensures (forall k :: k in ks ==> k in m) ==> forall i :: 0 <= i < |ks| ==> r[i] == m[ks[i]]
  {
    if |ks| == 0 then []
    else if ks[0] in m then [m[ks[0]]] + ValuesOf(ks[1..], m)
    else ValuesOf(ks[1..], m)
  }

  /** Removing a value from a sequence of distinct values leaves it distinct. */
  lemma {:induction false} RemoveAllKeepsDistinct(s: seq<string>, x: string)
    requires forall i, j :: 0 <= i < j < |s| ==> s[i] != s[j]
    ensures forall i, j :: 0 <= i < j < |RemoveAll(s, x)| ==> RemoveAll(s, x)[i] != RemoveAll(s, x)[j]
    decreases |s|
  {
    if |s| > 0 {
      RemoveAllKeepsDistinct(s[1..], x);
      var tail := RemoveAll(s[1..], x);
      if s[0] != x {
        assert s[0] !in s[1..];
        assert multiset(tail)[s[0]] == 0;
        assert RemoveAll(s, x) == [s[0]] + tail;
      }
    }
  }

  /** In a sequence of distinct values every value occurs at most once. */
  lemma {:induction false} DistinctCountOne(s: seq<string>, x: string)
    requires forall i, j :: 0 <= i < j < |s| ==> s[i] != s[j]
    ensures multiset(s)[x] <= 1
    decreases |s|
  {
    if |s| > 0 {
      assert s == [s[0]] + s[1..];
      DistinctCountOne(s[1..], x);
      if s[0] == x {
        assert x !in s[1..];
      }
    }
  }

  datatype Board = Board(id: string, name: string, columns: seq<Column>, tasks: TaskRecord)

  datatype Project = Project(id: string, name: string, boards: seq<Board>)

  // ---------------------------------------------------------------------
  // Lookups on the active board (page.tsx)
  // ---------------------------------------------------------------------

  /** `findColumnByTask`: the first column whose ids include `taskId`. */
  function FindColumnByTask(columns: seq<Column>, taskId: string): (r: Option<Column>)
    ensures r.Some? <==> exists i :: 0 <= i < |columns| && taskId in columns[i].taskIds
    ensures r.Some? ==> r.value in columns && taskId in r.value.taskIds
    ensures r.Some? ==> exists i :: 0 <= i < |columns| && columns[i] == r.value &&
                          forall j :: 0 <= j < i ==> taskId !in columns[j].taskIds
  {
    var p := (c: Column) => taskId in c.taskIds;
    var r := Find(columns, p);
    assert r.Some? ==> var i := FindIndex(columns, p).value; columns[i] == r.value;
    r
  }

  /** `getColumnById`: the first column with that id. */
  function GetColumnById(columns: seq<Column>, columnId: string): (r: Option<Column>)
    ensures r.Some? <==> exists i :: 0 <= i < |columns| && columns[i].id == columnId
    ensures r.Some? ==> r.value in columns && r.value.id == columnId
    ensures r.Some? ==> exists i :: 0 <= i < |columns| && columns[i] == r.value &&
                          forall j :: 0 <= j < i ==> columns[j].id != columnId
  {
    var p := (c: Column) => c.id == columnId;
    var r := Find(columns, p);
    assert r.Some? ==> var i := FindIndex(columns, p).value; columns[i] == r.value;
    r
  }

  /** `getTodoColumnId`: "col-todo" when the board has that column, else the
      id of its first column, and nothing when it has no column. */
  function TodoColumnId(columns: seq<Column>): (r: Option<string>)
    ensures r.Some? <==> |columns| > 0
    ensures (exists i :: 0 <= i < |columns| && columns[i].id == "col-todo") ==> r == Some("col-todo")
    ensures (forall i :: 0 <= i < |columns| ==> columns[i].id != "col-todo") && |columns| > 0 ==>
              r == Some(columns[0].id)
  {
    match GetColumnById(columns, "col-todo")
    case Some(c) => Some(c.id)
    case None => if |columns| > 0 then Some(columns[0].id) else None
  }

  /** `column.taskIds.map((id) => board.tasks[id]).filter(Boolean)`: the
      tasks of the listed ids that the record has, in column order. */
  function ResolvedTasks(tasks: TaskRecord, ids: seq<string>): (r: seq<Task>)
    ensures |r| <= |ids|
    ensures (forall i :: 0 <= i < |ids| ==> ids[i] in tasks.entries) ==>
              |r| == |ids| && forall i :: 0 <= i < |ids| ==> r[i] == tasks.entries[ids[i]]
    ensures (forall i :: 0 <= i < |ids| ==> ids[i] !in tasks.entries) ==> r == []
    ensures forall t :: t in r ==> exists i :: 0 <= i < |ids| && ids[i] in tasks.entries && tasks.entries[ids[i]] == t
  {
    if |ids| == 0 then []
    else
      var rest := ResolvedTasks(tasks, ids[1..]);
      assert forall t :: t in rest ==> exists i :: 0 <= i < |ids| && ids[i] in tasks.entries && tasks.entries[ids[i]] == t by {
        forall t | t in rest ensures exists i :: 0 <= i < |ids| && ids[i] in tasks.entries && tasks.entries[ids[i]] == t {
          var i :| 0 <= i < |ids[1..]| && ids[1..][i] in tasks.entries && tasks.entries[ids[1..][i]] == t;
          assert ids[i + 1] == ids[1..][i];
        }
      }
      match tasks.Get(ids[0])
      case Some(t) => [t] + rest
      case None => rest
  }

  /** Resolving a concatenation resolves each part. */
  lemma {:induction false} ResolvedTasksConcat(tasks: TaskRecord, a: seq<string>, b: seq<string>)
    ensures ResolvedTasks(tasks, a + b) == ResolvedTasks(tasks, a) + ResolvedTasks(tasks, b)
    decreases |a|
  {
    if |a| == 0 {
      assert a + b == b;
    } else {
      assert (a + b)[1..] == a[1..] + b;
      ResolvedTasksConcat(tasks, a[1..], b);
    }
  }

  // ---------------------------------------------------------------------
  // The placement invariant: a task id sits in at most one column, once
  // ---------------------------------------------------------------------

  /** How many times `id` is listed, over all columns. */
  ghost function Occurrences(columns: seq<Column>, id: string): nat
  {
    if |columns| == 0 then 0
    else multiset(columns[0].taskIds)[id] + Occurrences(columns[1..], id)
  }

  /** No task id is listed twice, in one column or across two. */
  ghost predicate PlacedAtMostOnce(columns: seq<Column>)
  {
    forall id :: Occurrences(columns, id) <= 1
  }

  /** Replacing one column changes the count of `id` by the difference
      between the old and the new column's count. */
  lemma {:induction false} OccurrencesUpdate(columns: seq<Column>, i: nat, c: Column, id: string)
    requires i < |columns|
    ensures Occurrences(columns[i := c], id) + multiset(columns[i].taskIds)[id]
         == Occurrences(columns, id) + multiset(c.taskIds)[id]
    decreases |columns|
  {
    if i > 0 {
      assert columns[i := c][1..] == columns[1..][i - 1 := c];
      OccurrencesUpdate(columns[1..], i - 1, c, id);
    } else {
      assert columns[i := c][1..] == columns[1..];
    }
  }

  /** The count of `id` in one column is bounded by its total count. */
  lemma {:induction false} OccurrencesAtLeast(columns: seq<Column>, i: nat, id: string)
    requires i < |columns|
    ensures multiset(columns[i].taskIds)[id] <= Occurrences(columns, id)
    decreases |columns|
  {
    if i > 0 {
      OccurrencesAtLeast(columns[1..], i - 1, id);
    }
  }

  /** Columns listing the same ids, column by column, count alike. */
  lemma {:induction false} OccurrencesSameIds(a: seq<Column>, b: seq<Column>, id: string)
    requires |a| == |b|
    requires forall i :: 0 <= i < |a| ==> a[i].taskIds == b[i].taskIds
    ensures Occurrences(a, id) == Occurrences(b, id)
    decreases |a|
  {
    if |a| > 0 {
      OccurrencesSameIds(a[1..], b[1..], id);
    }
  }

  // ---------------------------------------------------------------------
  // The file as the scripts read it
  // ---------------------------------------------------------------------

  datatype FileBoard = FileBoard(
    id: string,
    name: Option<string>,
    columns: Option<seq<Column>>,
    tasks: Option<TaskRecord>)

  datatype FileProject = FileProject(id: string, name: Option<string>, boards: Option<seq<FileBoard>>)

  /** The parsed sync file; any property may be missing. */
  datatype FileDocument = FileDocument(
    projects: Option<seq<FileProject>>,
    activeProjectId: Option<string>,
    activeBoardId: Option<string>,
    exportedAt: Option<string>)

  /** `data.projects?.find((p) => p.id === data.activeProjectId) || data.projects?.[0]`,
      the project both scripts work on. */
  function FileActiveProject(doc: FileDocument): (r: Option<FileProject>)
    ensures r.Some? <==> doc.projects.Some? && |doc.projects.value| > 0
    ensures r.Some? && (exists i :: 0 <= i < |doc.projects.value| && Some(doc.projects.value[i].id) == doc.activeProjectId) ==>
              Some(r.value.id) == doc.activeProjectId &&
              exists i :: 0 <= i < |doc.projects.value| && doc.projects.value[i] == r.value &&
                forall j :: 0 <= j < i ==> Some(doc.projects.value[j].id) != doc.activeProjectId
    ensures r.Some? && (forall i :: 0 <= i < |doc.projects.value| ==> Some(doc.projects.value[i].id) != doc.activeProjectId) ==>
              r.value == doc.projects.value[0]
  {
    match doc.projects
    case None => None
    case Some(ps) =>
      var p := (x: FileProject) => Some(x.id) == doc.activeProjectId;
      var r := FindOrFirst(ps, p);
      assert FindIndex(ps, p).Some? ==> ps[FindIndex(ps, p).value] == Find(ps, p).value;
      r
  }

  /** `project?.boards?.find((b) => b.id === data.activeBoardId) || project?.boards?.[0]`. */
  function FileActiveBoard(doc: FileDocument): (r: Option<FileBoard>)
    ensures r.Some? ==> FileActiveProject(doc).Some? && FileActiveProject(doc).value.boards.Some?
    ensures r.Some? <==> FileActiveProject(doc).Some? && FileActiveProject(doc).value.boards.Some? &&
                         |FileActiveProject(doc).value.boards.value| > 0
    ensures r.Some? ==>
              var bs := FileActiveProject(doc).value.boards.value;
              if exists i :: 0 <= i < |bs| && Some(bs[i].id) == doc.activeBoardId
              then Some(r.value.id) == doc.activeBoardId &&
                   exists i :: 0 <= i < |bs| && bs[i] == r.value &&
                     forall j :: 0 <= j < i ==> Some(bs[j].id) != doc.activeBoardId
              else r.value == bs[0]
  {
    match FileActiveProject(doc)
    case None => None
    case Some(project) =>
      match project.boards
      case None => None
      case Some(bs) =>
        var p := (x: FileBoard) => Some(x.id) == doc.activeBoardId;
        var r := FindOrFirst(bs, p);
        assert FindIndex(bs, p).Some? ==> bs[FindIndex(bs, p).value] == Find(bs, p).value;
        r
  }

  /** A typed board as the UI writes it into the file. */
  function BoardToFile(b: Board): (r: FileBoard)
    ensures r.columns == Some(b.columns) && r.tasks == Some(b.tasks) && r.name == Some(b.name)
  {
    FileBoard(b.id, Some(b.name), Some(b.columns), Some(b.tasks))
  }

  function BoardsToFile(bs: seq<Board>): (r: seq<FileBoard>)
    ensures |r| == |bs| && forall i :: 0 <= i < |bs| ==> r[i] == BoardToFile(bs[i])
  {
    if |bs| == 0 then [] else [BoardToFile(bs[0])] + BoardsToFile(bs[1..])
  }

  function ProjectToFile(p: Project): (r: FileProject)
    ensures r.id == p.id && r.boards == Some(BoardsToFile(p.boards))
  {
    FileProject(p.id, Some(p.name), Some(BoardsToFile(p.boards)))
  }

  function ProjectsToFile(ps: seq<Project>): (r: seq<FileProject>)
    ensures |r| == |ps| && forall i :: 0 <= i < |ps| ==> r[i] == ProjectToFile(ps[i])
  {
    if |ps| == 0 then [] else [ProjectToFile(ps[0])] + ProjectsToFile(ps[1..])
  }
}
