/**
 * The board operations of the web UI, each lifted out of its React handler
 * as a function from the board before to the board after (or to a value):
 * the active project/board fallback, `updateBoard`, quick add, the WIP
 * limit edit and check, drag and drop, saving and deleting a draft, the
 * focus-mode filter, the clipboard summary, import and the seed board.
 */
module BoardOps {
  import opened Wrappers
  import opened Text
  import opened Seqs
  import opened Kanban
  import opened Cli

  // ---------------------------------------------------------------------
  // Finding by id, with the first element as fallback
  // ---------------------------------------------------------------------

  /** The index of the first `id` in `ids`, else 0, and nothing when `ids`
      is empty: `xs.find((x) => x.id === id) ?? xs[0]` as an index. */
  function IdIndexOrFirst(ids: seq<string>, id: string): (r: Option<nat>)
    ensures r.Some? <==> |ids| > 0
    ensures r.Some? ==> r.value < |ids|
    ensures id in ids ==> r.Some? && ids[r.value] == id && id !in ids[..r.value]
    ensures id !in ids && |ids| > 0 ==> r == Some(0)
  {
    match IndexOf(ids, id)
    case Some(i) => Some(i)
    case None => if |ids| > 0 then Some(0) else None
  }

  function ProjectIds(ps: seq<Project>): (r: seq<string>)
    ensures |r| == |ps| && forall i :: 0 <= i < |ps| ==> r[i] == ps[i].id
  {
    seq(|ps|, i requires 0 <= i < |ps| => ps[i].id)
  }

  function BoardIds(bs: seq<Board>): (r: seq<string>)
    ensures |r| == |bs| && forall i :: 0 <= i < |bs| ==> r[i] == bs[i].id
  {
    seq(|bs|, i requires 0 <= i < |bs| => bs[i].id)
  }

  function ColumnIds(cs: seq<Column>): (r: seq<string>)
    ensures |r| == |cs| && forall i :: 0 <= i < |cs| ==> r[i] == cs[i].id
  {
    seq(|cs|, i requires 0 <= i < |cs| => cs[i].id)
  }

  /** Where the UI's `activeProject` sits in `projects`. */
  function ActiveProjectIndex(projects: seq<Project>, pid: string): (r: Option<nat>)
    ensures r.Some? <==> |projects| > 0
    ensures r.Some? ==> r.value < |projects|
    ensures (exists i :: 0 <= i < |projects| && projects[i].id == pid) ==>
              r.Some? && projects[r.value].id == pid && forall j :: 0 <= j < r.value ==> projects[j].id != pid
    ensures (forall i :: 0 <= i < |projects| ==> projects[i].id != pid) && |projects| > 0 ==> r == Some(0)
  {
    var ids := ProjectIds(projects);
    var r := IdIndexOrFirst(ids, pid);
    assert (exists i :: 0 <= i < |projects| && projects[i].id == pid) ==> pid in ids by {
      if exists i :: 0 <= i < |projects| && projects[i].id == pid {
        var i :| 0 <= i < |projects| && projects[i].id == pid;
        assert ids[i] == pid;
      }
    }
    assert r.Some? && pid in ids ==> forall j :: 0 <= j < r.value ==> projects[j].id != pid by {
      if r.Some? && pid in ids {
        forall j | 0 <= j < r.value ensures projects[j].id != pid {
          assert ids[..r.value][j] == ids[j];
        }
      }
    }
    r
  }

  /** Where the active board sits among a project's boards. */
  function ActiveBoardIndex(boards: seq<Board>, bid: string): (r: Option<nat>)
    ensures r.Some? <==> |boards| > 0
    ensures r.Some? ==> r.value < |boards|
    ensures (exists i :: 0 <= i < |boards| && boards[i].id == bid) ==>
              r.Some? && boards[r.value].id == bid && forall j :: 0 <= j < r.value ==> boards[j].id != bid
    ensures (forall i :: 0 <= i < |boards| ==> boards[i].id != bid) && |boards| > 0 ==> r == Some(0)
  {
    var ids := BoardIds(boards);
    var r := IdIndexOrFirst(ids, bid);
    assert (exists i :: 0 <= i < |boards| && boards[i].id == bid) ==> bid in ids by {
      if exists i :: 0 <= i < |boards| && boards[i].id == bid {
        var i :| 0 <= i < |boards| && boards[i].id == bid;
        assert ids[i] == bid;
      }
    }
    assert r.Some? && bid in ids ==> forall j :: 0 <= j < r.value ==> boards[j].id != bid by {
      if r.Some? && bid in ids {
        forall j | 0 <= j < r.value ensures boards[j].id != bid {
          assert ids[..r.value][j] == ids[j];
        }
      }
    }
    r
  }

  /** `activeProject`: the project whose id is `activeProjectId`, else the
      first; nothing only when there is no project. */
  function ActiveProject(projects: seq<Project>, pid: string): (r: Option<Project>)
    ensures r.Some? <==> |projects| > 0
    ensures r.Some? ==> r.value == projects[ActiveProjectIndex(projects, pid).value]
  {
    match ActiveProjectIndex(projects, pid)
    case None => None
    case Some(i) => Some(projects[i])
  }

  /** `activeBoard`: within the active project, the board whose id is
      `activeBoardId`, else its first board. */
  function ActiveBoard(projects: seq<Project>, pid: string, bid: string): (r: Option<Board>)
    ensures r.Some? <==> ActiveProject(projects, pid).Some? && |ActiveProject(projects, pid).value.boards| > 0
    ensures r.Some? ==>
              var p := ActiveProject(projects, pid).value;
              r.value == p.boards[ActiveBoardIndex(p.boards, bid).value]
  {
    match ActiveProject(projects, pid)
    case None => None
    case Some(p) =>
      match ActiveBoardIndex(p.boards, bid)
      case None => None
      case Some(j) => Some(p.boards[j])
  }

  /** The project-level fallback never fails on a non-empty list, and when
      the ids match it ignores the fallback. */
  lemma ActiveBoardMatching(projects: seq<Project>, pid: string, bid: string, i: nat, j: nat)
    requires i < |projects| && projects[i].id == pid && forall k :: 0 <= k < i ==> projects[k].id != pid
    requires j < |projects[i].boards| && projects[i].boards[j].id == bid &&
             forall k :: 0 <= k < j ==> projects[i].boards[k].id != bid
    ensures ActiveBoard(projects, pid, bid) == Some(projects[i].boards[j])
  {
  }

  /** The effect that repairs a dangling `activeBoardId`: when the active
      project has no board with that id, the id of its first board, or ""
      when it has none. */
  function RepairedBoardId(projects: seq<Project>, pid: string, bid: string): (r: string)
    ensures ActiveProject(projects, pid).None? ==> r == bid
    ensures ActiveProject(projects, pid).Some? ==>
              var bs := ActiveProject(projects, pid).value.boards;
              && ((exists k :: 0 <= k < |bs| && bs[k].id == bid) ==> r == bid)
              && ((forall k :: 0 <= k < |bs| ==> bs[k].id != bid) ==> r == if |bs| > 0 then bs[0].id else "")
  {
    match ActiveProject(projects, pid)
    case None => bid
    case Some(p) =>
      if exists k :: 0 <= k < |p.boards| && p.boards[k].id == bid then bid
      else if |p.boards| > 0 then p.boards[0].id
      else ""
  }

  /** After the repair, the board id names a board of the active project
      whenever it has one, and the active board itself is unchanged. */
  lemma RepairResolves(projects: seq<Project>, pid: string, bid: string)
    requires ActiveBoard(projects, pid, bid).Some?
    ensures var p := ActiveProject(projects, pid).value;
            var nb := RepairedBoardId(projects, pid, bid);
            exists k :: 0 <= k < |p.boards| && p.boards[k].id == nb
    ensures ActiveBoard(projects, pid, RepairedBoardId(projects, pid, bid)) == ActiveBoard(projects, pid, bid)
  {
    var p := ActiveProject(projects, pid).value;
    if !exists k :: 0 <= k < |p.boards| && p.boards[k].id == bid {
      assert p.boards[0].id == RepairedBoardId(projects, pid, bid);
    }
  }

  /** `visibleColumns`: in focus mode every column except `col-done`. */
  function VisibleColumns(columns: seq<Column>, focusMode: bool): (r: seq<Column>)
    ensures !focusMode ==> r == columns
    ensures focusMode ==> forall c :: c in r <==> c in columns && c.id != "col-done"
    ensures |r| <= |columns|
    ensures focusMode && |columns| == 1 ==> r == if columns[0].id != "col-done" then columns else []
  {
    if focusMode then Filter(columns, NotDone) else columns
  }

  /** The focus-mode test. */
  predicate NotDone(c: Column)
  {
    c.id != "col-done"
  }

  /** The filter works column by column: the visible columns of a
      concatenation are those of each part, so the order is kept. */
  lemma VisibleColumnsConcat(a: seq<Column>, b: seq<Column>, focusMode: bool)
    ensures VisibleColumns(a + b, focusMode) == VisibleColumns(a, focusMode) + VisibleColumns(b, focusMode)
  {
    if focusMode {
      FilterConcat(a, b, NotDone);
    }
  }

  // ---------------------------------------------------------------------
  // Well-formed boards
  // ---------------------------------------------------------------------

  /** No two elements of `s` are equal. */
  predicate Distinct(s: seq<string>)
  {
    forall i, j :: 0 <= i < j < |s| ==> s[i] != s[j]
  }

  /** What every operation below keeps: the task record is consistent, no
      task id is listed twice, and the column ids are distinct. */
  ghost predicate WellFormed(b: Board)
  {
    b.tasks.Valid() && PlacedAtMostOnce(b.columns) && Distinct(ColumnIds(b.columns))
  }

  /** An id not yet used on the board, as `getId()` gives. */
  ghost predicate Fresh(b: Board, id: string)
  {
    id !in b.tasks.entries && Occurrences(b.columns, id) == 0
  }

  /** With distinct column ids, the first column with a given column's id is
      that column. */
  lemma DistinctIndex(cs: seq<Column>, i: nat)
    requires Distinct(ColumnIds(cs)) && i < |cs|
    ensures IndexOf(ColumnIds(cs), cs[i].id) == Some(i)
  {
    var ids := ColumnIds(cs);
    var j := IndexOf(ids, cs[i].id).value;
    assert ids[j] == ids[i];
  }

  // ---------------------------------------------------------------------
  // Prepending a new id to one column
  // ---------------------------------------------------------------------

  /** `target.taskIds.unshift(id)` on the column at index `k`. */
  function PrependAt(cs: seq<Column>, k: nat, id: string): (r: seq<Column>)
    requires k < |cs|
    ensures |r| == |cs| && ColumnIds(r) == ColumnIds(cs)
    ensures r[k].taskIds == [id] + cs[k].taskIds
    ensures forall j :: 0 <= j < |cs| && j != k ==> r[j] == cs[j]
  {
    cs[k := cs[k].(taskIds := [id] + cs[k].taskIds)]
  }

  /** Prepending a fresh id lists it exactly once and changes no other
      id's count. */
  lemma PrependPlacement(cs: seq<Column>, k: nat, id: string)
    requires k < |cs| && Occurrences(cs, id) == 0
    ensures Occurrences(PrependAt(cs, k, id), id) == 1
    ensures forall x :: x != id ==> Occurrences(PrependAt(cs, k, id), x) == Occurrences(cs, x)
    ensures PlacedAtMostOnce(cs) ==> PlacedAtMostOnce(PrependAt(cs, k, id))
  {
    var c := cs[k].(taskIds := [id] + cs[k].taskIds);
    forall x ensures Occurrences(PrependAt(cs, k, id), x) == Occurrences(cs, x) + (if x == id then 1 else 0) {
      OccurrencesUpdate(cs, k, c, x);
      OccurrencesAtLeast(cs, k, x);
    }
  }

  // ---------------------------------------------------------------------
  // Quick add
  // ---------------------------------------------------------------------

  /** The task `addQuickTask` creates: the trimmed title, no description,
      no tags, no due date. */
  function QuickTask(newId: string, title: string, assignee: string, priority: string): (t: Task)
    ensures t.id == newId && t.title == Trim(title) && t.description == "" && t.tags == [] && t.dueDate == ""
    ensures t.assignee == assignee && t.priority == priority
  {
    Task(newId, Trim(title), "", assignee, priority, [], "")
  }

  /** The `addQuickTask` updater: record the task under its new id and put
      the id first in the column with id `columnId`, else the first column. */
  function QuickAdd(b: Board, columnId: string, newId: string, title: string, assignee: string, priority: string)
    : (r: Board)
    ensures r.id == b.id && r.name == b.name
    ensures r.tasks == b.tasks.Put(newId, QuickTask(newId, title, assignee, priority))
    ensures ColumnIds(r.columns) == ColumnIds(b.columns)
  {
    var tasks := b.tasks.Put(newId, QuickTask(newId, title, assignee, priority));
    match IdIndexOrFirst(ColumnIds(b.columns), columnId)
    case None => b.(tasks := tasks)
    case Some(k) => b.(tasks := tasks, columns := PrependAt(b.columns, k, newId))
  }

  /** Quick add on a board with columns: the new task is the only task
      that changes, its id goes to the front of the target column, and no
      other column changes. */
  lemma QuickAddPlaces(b: Board, columnId: string, newId: string, title: string, assignee: string, priority: string)
    requires |b.columns| > 0
    ensures var r := QuickAdd(b, columnId, newId, title, assignee, priority);
            var k := IdIndexOrFirst(ColumnIds(b.columns), columnId).value;
            && r.tasks.Get(newId) == Some(QuickTask(newId, title, assignee, priority))
            && (forall key :: key != newId ==> r.tasks.Get(key) == b.tasks.Get(key))
            && r.columns[k].taskIds == [newId] + b.columns[k].taskIds
            && (forall j :: 0 <= j < |b.columns| && j != k ==> r.columns[j] == b.columns[j])
  {
  }

  /** Quick add with a fresh id keeps the board well formed, and the new id
      is then listed exactly once. */
  lemma QuickAddWellFormed(b: Board, columnId: string, newId: string, title: string, assignee: string, priority: string)
    requires WellFormed(b) && Fresh(b, newId) && |b.columns| > 0
    ensures var r := QuickAdd(b, columnId, newId, title, assignee, priority);
            WellFormed(r) && Occurrences(r.columns, newId) == 1
  {
    var k := IdIndexOrFirst(ColumnIds(b.columns), columnId).value;
    PrependPlacement(b.columns, k, newId);
  }

  // ---------------------------------------------------------------------
  // WIP limits
  // ---------------------------------------------------------------------

  /** The limit `saveWipLimit` stores for the parsed draft (`None` for an
      empty or non-finite draft): none unless it is positive, else its
      floor, which is 0 for a value below 1. */
  function WipLimitFrom(next: Option<real>): (r: Option<int>)
    ensures next.None? || next.value <= 0.0 ==> r.None?
    ensures next.Some? && next.value > 0.0 ==> r == Some(next.value.Floor) && 0 <= r.value
    ensures next.Some? && next.value >= 1.0 ==> r.value >= 1
  {
    if next.None? || next.value <= 0.0 then None else Some(next.value.Floor)
  }

  /** The `saveWipLimit` updater: every column with id `columnId` gets the
      new limit, every other column is returned as it was. */
  function SetWipLimit(b: Board, columnId: string, next: Option<real>): (r: Board)
    ensures r.id == b.id && r.name == b.name && r.tasks == b.tasks
    ensures |r.columns| == |b.columns|
    ensures forall k :: 0 <= k < |b.columns| ==>
              && r.columns[k].id == b.columns[k].id
              && r.columns[k].title == b.columns[k].title
              && r.columns[k].taskIds == b.columns[k].taskIds
    ensures forall k :: 0 <= k < |b.columns| && b.columns[k].id != columnId ==> r.columns[k] == b.columns[k]
    ensures forall k :: 0 <= k < |b.columns| && b.columns[k].id == columnId ==> r.columns[k].wipLimit == WipLimitFrom(next)
  {
    var cs := b.columns;
    b.(columns := seq(|cs|, k requires 0 <= k < |cs| =>
                        if cs[k].id != columnId then cs[k] else cs[k].(wipLimit := WipLimitFrom(next))))
  }

  /** The over-limit check of a column: its limit (0 when unset) is
      positive and the column resolves more tasks than that. */
  function IsOverWip(tasks: TaskRecord, c: Column): (r: bool)
    ensures r ==> c.wipLimit.Some? && c.wipLimit.value > 0
    ensures c.wipLimit.Some? && c.wipLimit.value > 0 ==>
              (r <==> |ResolvedTasks(tasks, c.taskIds)| > c.wipLimit.value)
  {
    var limit := if c.wipLimit.Some? then c.wipLimit.value else 0;
    limit > 0 && |ResolvedTasks(tasks, c.taskIds)| > limit
  }

  /** After saving an empty, non-numeric, non-positive or below-one draft,
      the edited columns are never over their limit; after a draft of at
      least 1 they are over exactly when they resolve more tasks than its
      floor. */
  lemma SetWipLimitOverWip(b: Board, columnId: string, next: Option<real>, k: nat)
    requires k < |b.columns| && b.columns[k].id == columnId
    ensures var r := SetWipLimit(b, columnId, next);
            && (next.None? || next.value < 1.0 ==> !IsOverWip(r.tasks, r.columns[k]))
            && (next.Some? && next.value >= 1.0 ==>
                  (IsOverWip(r.tasks, r.columns[k]) <==> |ResolvedTasks(b.tasks, b.columns[k].taskIds)| > next.value.Floor))
  {
    var r := SetWipLimit(b, columnId, next);
    if next.Some? && 0.0 < next.value < 1.0 {
      assert next.value.Floor == 0;
    }
  }

  /** Editing a limit keeps the board well formed. */
  lemma SetWipLimitWellFormed(b: Board, columnId: string, next: Option<real>)
    requires WellFormed(b)
    ensures WellFormed(SetWipLimit(b, columnId, next))
  {
    var r := SetWipLimit(b, columnId, next);
    forall id ensures Occurrences(r.columns, id) == Occurrences(b.columns, id) {
      OccurrencesSameIds(r.columns, b.columns, id);
    }
    assert ColumnIds(r.columns) == ColumnIds(b.columns);
  }

  // ---------------------------------------------------------------------
  // Drag and drop
  // ---------------------------------------------------------------------

  /** Where the dragged id goes in the target column once it has been
      filtered out: just before `overId` when that id is there, else last. */
  function PlaceBefore(rest: seq<string>, activeId: string, overId: string): (r: seq<string>)
    ensures |r| == |rest| + 1
    ensures multiset(r) == multiset(rest) + multiset{activeId}
    ensures overId in rest ==> var k := IndexOf(rest, overId).value;
              r[..k] == rest[..k] && r[k] == activeId && r[k + 1..] == rest[k..]
    ensures overId !in rest ==> r == rest + [activeId]
  {
    match IndexOf(rest, overId)
    case Some(k) => InsertAt(rest, k, activeId)
    case None => rest + [activeId]
  }

  /** The within-column branch: the card at index `from` of column `si`
      moves to index `to`. */
  function MoveWithin(cs: seq<Column>, si: nat, from: nat, to: nat): (r: seq<Column>)
    requires si < |cs| && from < |cs[si].taskIds| && to < |cs[si].taskIds|
    ensures |r| == |cs| && ColumnIds(r) == ColumnIds(cs)
    ensures r[si].taskIds == ArrayMove(cs[si].taskIds, from, to)
    ensures multiset(r[si].taskIds) == multiset(cs[si].taskIds) && r[si].taskIds[to] == cs[si].taskIds[from]
    ensures forall j :: 0 <= j < |cs| && j != si ==> r[j] == cs[j]
  {
    cs[si := cs[si].(taskIds := ArrayMove(cs[si].taskIds, from, to))]
  }

  /** The cross-column branch: `activeId` is filtered out of columns `si`
      and `ti`, then placed in column `ti`. */
  function MoveAcross(cs: seq<Column>, si: nat, ti: nat, activeId: string, overId: string): (r: seq<Column>)
    requires si < |cs| && ti < |cs| && si != ti
    ensures |r| == |cs| && ColumnIds(r) == ColumnIds(cs)
    ensures r[si].taskIds == RemoveAll(cs[si].taskIds, activeId)
    ensures r[ti].taskIds == PlaceBefore(RemoveAll(cs[ti].taskIds, activeId), activeId, overId)
    ensures forall j :: 0 <= j < |cs| && j != si && j != ti ==> r[j] == cs[j]
  {
    var src := cs[si].(taskIds := RemoveAll(cs[si].taskIds, activeId));
    var placed := PlaceBefore(RemoveAll(cs[ti].taskIds, activeId), activeId, overId);
    cs[si := src][ti := cs[ti].(taskIds := placed)]
  }

  /** The `handleDragEnd` updater for the columns `sourceId` (where the card
      is) and `targetId` (where it was dropped), as found by the handler:
      dropping on its own column changes nothing; within one column the card
      moves from its index to the index of `overId` (if both are there);
      across columns it is filtered out of both and placed in the target. */
  function DragUpdate(b: Board, sourceId: string, targetId: string, activeId: string, overId: string): (r: Board)
    ensures r.id == b.id && r.name == b.name && r.tasks == b.tasks
    ensures ColumnIds(r.columns) == ColumnIds(b.columns)
  {
    var ids := ColumnIds(b.columns);
    match IndexOf(ids, sourceId)
    case None => b
    case Some(si) =>
      match IndexOf(ids, targetId)
      case None => b
      case Some(ti) =>
        if sourceId == targetId && overId == sourceId then b
        else if sourceId == targetId then
          var s := b.columns[si].taskIds;
          match IndexOf(s, activeId)
          case None => b
          case Some(from) =>
            match IndexOf(s, overId)
            case None => b
            case Some(to) => b.(columns := MoveWithin(b.columns, si, from, to))
        else
          b.(columns := MoveAcross(b.columns, si, ti, activeId, overId))
  }

  /** A drop on another card of the same column is a permutation of that
      column's ids that puts the card at the other card's index; the other
      columns do not change. */
  lemma DragWithinColumn(b: Board, columnId: string, activeId: string, overId: string)
    requires columnId in ColumnIds(b.columns) && overId != columnId
    requires var s := b.columns[IndexOf(ColumnIds(b.columns), columnId).value];
             activeId in s.taskIds && overId in s.taskIds
    ensures var si := IndexOf(ColumnIds(b.columns), columnId).value;
            var r := DragUpdate(b, columnId, columnId, activeId, overId);
            var old_ := b.columns[si].taskIds;
            && |r.columns| == |b.columns|
            && multiset(r.columns[si].taskIds) == multiset(old_)
            && r.columns[si].taskIds[IndexOf(old_, overId).value] == activeId
            && (forall j :: 0 <= j < |b.columns| && j != si ==> r.columns[j] == b.columns[j])
  {
  }

  /** Placing the card keeps the other ids of the target in order, the card
      once among them. */
  lemma PlaceBeforeRemove(rest: seq<string>, activeId: string, overId: string)
    requires activeId !in rest
    ensures RemoveAll(PlaceBefore(rest, activeId, overId), activeId) == rest
    ensures multiset(PlaceBefore(rest, activeId, overId))[activeId] == 1
  {
    assert multiset(rest)[activeId] == 0;
    if overId in rest {
      var k := IndexOf(rest, overId).value;
      InsertRemove(rest, k, activeId);
    } else {
      InsertRemove(rest, |rest|, activeId);
      assert InsertAt(rest, |rest|, activeId) == rest + [activeId];
    }
  }

  /** Filtering a fresh element back out of a sequence it was inserted
      into gives the sequence back. */
  lemma InsertRemove(s: seq<string>, k: nat, x: string)
    requires k <= |s| && x !in s
    ensures RemoveAll(InsertAt(s, k, x), x) == s
  {
    var a, c := s[..k], s[k..];
    assert s == a + c;
    assert x !in a && x !in c;
    assert InsertAt(s, k, x) == (a + [x]) + c;
    assert RemoveAll([x], x) == [];
    RemoveAllConcat(a, [x], x);
    assert RemoveAll(a + [x], x) == a;
    RemoveAllConcat(a + [x], c, x);
    assert RemoveAll(c, x) == c;
  }

  /** A drop into another column: the card leaves the source, appears once
      in the target, right before `overId` when that card is there and last
      otherwise, the target's other ids keep their order, and no other
      column changes. */
  lemma DragAcrossColumns(b: Board, sourceId: string, targetId: string, activeId: string, overId: string)
    requires sourceId in ColumnIds(b.columns) && targetId in ColumnIds(b.columns) && sourceId != targetId
    ensures var ids := ColumnIds(b.columns);
            var si := IndexOf(ids, sourceId).value;
            var ti := IndexOf(ids, targetId).value;
            var r := DragUpdate(b, sourceId, targetId, activeId, overId);
            var rest := RemoveAll(b.columns[ti].taskIds, activeId);
            && activeId !in r.columns[si].taskIds
            && r.columns[si].taskIds == RemoveAll(b.columns[si].taskIds, activeId)
            && multiset(r.columns[ti].taskIds)[activeId] == 1
            && RemoveAll(r.columns[ti].taskIds, activeId) == rest
            && (overId in rest ==> r.columns[ti].taskIds[IndexOf(rest, overId).value] == activeId &&
                                   r.columns[ti].taskIds[IndexOf(rest, overId).value + 1] == overId)
            && (overId !in rest ==> r.columns[ti].taskIds == rest + [activeId])
            && (forall j :: 0 <= j < |b.columns| && j != si && j != ti ==> r.columns[j] == b.columns[j])
  {
    var ids := ColumnIds(b.columns);
    var ti := IndexOf(ids, targetId).value;
    PlaceBeforeRemove(RemoveAll(b.columns[ti].taskIds, activeId), activeId, overId);
  }

  /** Moving a card that sits in the source column changes no id's count,
      so it keeps the board well formed. */
  lemma DragUpdateWellFormed(b: Board, sourceId: string, targetId: string, activeId: string, overId: string)
    requires WellFormed(b)
    requires sourceId in ColumnIds(b.columns) && activeId in b.columns[IndexOf(ColumnIds(b.columns), sourceId).value].taskIds
    ensures WellFormed(DragUpdate(b, sourceId, targetId, activeId, overId))
    ensures forall x :: Occurrences(DragUpdate(b, sourceId, targetId, activeId, overId).columns, x) == Occurrences(b.columns, x)
  {
    var r := DragUpdate(b, sourceId, targetId, activeId, overId);
    var ids := ColumnIds(b.columns);
    var si := IndexOf(ids, sourceId).value;
    match IndexOf(ids, targetId)
    case None =>
    case Some(ti) =>
      if sourceId == targetId && overId == sourceId {
      } else if sourceId == targetId {
        var s := b.columns[si].taskIds;
        match IndexOf(s, activeId)
        case None =>
        case Some(from) =>
          match IndexOf(s, overId)
          case None =>
          case Some(to) => MoveWithinCounts(b.columns, si, from, to);
      } else {
        MoveAcrossCounts(b.columns, si, ti, activeId, overId);
      }
  }

  /** Moving a card inside its column changes no id's count. */
  lemma MoveWithinCounts(cs: seq<Column>, si: nat, from: nat, to: nat)
    requires si < |cs| && from < |cs[si].taskIds| && to < |cs[si].taskIds|
    ensures forall x :: Occurrences(MoveWithin(cs, si, from, to), x) == Occurrences(cs, x)
  {
    var r := MoveWithin(cs, si, from, to);
    assert r == cs[si := r[si]];
    forall x ensures Occurrences(r, x) == Occurrences(cs, x) {
      OccurrencesUpdate(cs, si, r[si], x);
    }
  }


  /** The cross-column branch changes no id's count when the card is in the
      source column and the board lists it at most once. */
  lemma MoveAcrossCounts(cs: seq<Column>, si: nat, ti: nat, activeId: string, overId: string)
    requires si < |cs| && ti < |cs| && si != ti
    requires activeId in cs[si].taskIds && Occurrences(cs, activeId) <= 1
    ensures forall x :: Occurrences(MoveAcross(cs, si, ti, activeId, overId), x) == Occurrences(cs, x)
  {
    var r := MoveAcross(cs, si, ti, activeId, overId);
    var src := cs[si].(taskIds := RemoveAll(cs[si].taskIds, activeId));
    var mid := cs[si := src];
    PlaceBeforeRemove(RemoveAll(cs[ti].taskIds, activeId), activeId, overId);
    assert r == mid[ti := r[ti]];
    OccurrencesTwo(cs, si, ti, activeId);
    var rest := RemoveAll(cs[ti].taskIds, activeId);
    assert mid[ti] == cs[ti];
    assert multiset(r[ti].taskIds) == multiset(rest) + multiset{activeId};
    assert multiset(cs[si].taskIds)[activeId] == 1 && multiset(cs[ti].taskIds)[activeId] == 0;
    forall x ensures Occurrences(r, x) == Occurrences(cs, x) {
      OccurrencesUpdate(cs, si, src, x);
      OccurrencesUpdate(mid, ti, r[ti], x);
      if x != activeId {
        assert multiset(src.taskIds)[x] == multiset(cs[si].taskIds)[x];
        assert multiset(r[ti].taskIds)[x] == multiset(cs[ti].taskIds)[x];
      }
    }
  }

  /** Two different columns together list an id at most as often as the
      whole board. */
  lemma {:induction false} OccurrencesTwo(cs: seq<Column>, i: nat, j: nat, id: string)
    requires i < |cs| && j < |cs| && i != j
    ensures multiset(cs[i].taskIds)[id] + multiset(cs[j].taskIds)[id] <= Occurrences(cs, id)
    decreases |cs|
  {
    if i == 0 {
      OccurrencesAtLeast(cs[1..], j - 1, id);
    } else if j == 0 {
      OccurrencesAtLeast(cs[1..], i - 1, id);
    } else {
      OccurrencesTwo(cs[1..], i - 1, j - 1, id);
    }
  }

  /** The guards of `handleDragEnd`: the ids of the column holding the
      card and of the column it was dropped on (the column with that id,
      else the column holding the card under the cursor), or `None` when
      the handler returns early. */
  function DragColumns(b: Board, activeId: string, over: Option<string>): (r: Option<(string, string)>)
    ensures over.None? || over == Some(activeId) || FindColumnByTask(b.columns, activeId).None? ==> r.None?
    ensures over.Some? && over != Some(activeId) && FindColumnByTask(b.columns, activeId).Some? ==>
              var overColumn := if GetColumnById(b.columns, over.value).Some? then GetColumnById(b.columns, over.value)
                                else FindColumnByTask(b.columns, over.value);
              && (overColumn.None? ==> r.None?)
              && (overColumn.Some? ==> r == Some((FindColumnByTask(b.columns, activeId).value.id, overColumn.value.id)))
  {
    if over.None? || activeId == over.value then None
    else
      match FindColumnByTask(b.columns, activeId)
      case None => None
      case Some(source) =>
        var target := match GetColumnById(b.columns, over.value)
                      case Some(c) => Some(c)
                      case None => FindColumnByTask(b.columns, over.value);
        match target
        case None => None
        case Some(t) => Some((source.id, t.id))
  }

  /** `handleDragEnd` on the active board: `None` when the handler returns
      before updating (no drop target, a drop on itself, no column holding
      the card, no column found for the target), else the updated board. */
  function DragEnd(b: Board, activeId: string, over: Option<string>): (r: Option<Board>)
    ensures over.None? || over == Some(activeId) ==> r.None?
    ensures FindColumnByTask(b.columns, activeId).None? ==> r.None?
  {
    match DragColumns(b, activeId, over)
    case None => None
    case Some((sourceId, targetId)) => Some(DragUpdate(b, sourceId, targetId, activeId, over.value))
  }


  /** Dropping a card on its own column's area changes nothing. */
  lemma DragOntoOwnColumn(b: Board, activeId: string, columnId: string)
    requires activeId != columnId
    requires FindColumnByTask(b.columns, activeId).Some? && FindColumnByTask(b.columns, activeId).value.id == columnId
    ensures DragEnd(b, activeId, Some(columnId)) == Some(b)
  {
    var source := FindColumnByTask(b.columns, activeId).value;
    var t := GetColumnById(b.columns, columnId).value;
    assert source.id in ColumnIds(b.columns) by {
      var i :| 0 <= i < |b.columns| && b.columns[i] == source;
      assert ColumnIds(b.columns)[i] == source.id;
    }
  }

  /** A completed drag on a well-formed board keeps it well formed; the card
      is then listed exactly once. */
  lemma DragEndWellFormed(b: Board, activeId: string, over: Option<string>)
    requires WellFormed(b) && DragEnd(b, activeId, over).Some?
    ensures var r := DragEnd(b, activeId, over).value;
            WellFormed(r) && Occurrences(r.columns, activeId) == 1
  {
    var source := FindColumnByTask(b.columns, activeId).value;
    var i :| 0 <= i < |b.columns| && b.columns[i] == source;
    DistinctIndex(b.columns, i);
    assert ColumnIds(b.columns)[i] == source.id;
    var (sourceId, targetId) := DragColumns(b, activeId, over).value;
    assert sourceId == source.id;
    DragUpdateWellFormed(b, sourceId, targetId, activeId, over.value);
    OccurrencesAtLeast(b.columns, i, activeId);
  }


  // ---------------------------------------------------------------------
  // Tags, drafts, deleting
  // ---------------------------------------------------------------------

  function TrimAll(parts: seq<string>): (r: seq<string>)
    ensures |r| == |parts| && forall k :: 0 <= k < |parts| ==> r[k] == Trim(parts[k])
  {
    seq(|parts|, k requires 0 <= k < |parts| => Trim(parts[k]))
  }

  /** Tags as `saveDraft` stores them: non-empty, trimmed, comma-free. */
  predicate NormalTags(tags: seq<string>)
  {
    forall k :: 0 <= k < |tags| ==> tags[k] != "" && IsTrimmed(tags[k]) && ',' !in tags[k]
  }

  /** Trimming keeps a comma-free piece comma-free. */
  lemma TrimAllCommaFree(parts: seq<string>)
    requires forall k :: 0 <= k < |parts| ==> ',' !in parts[k]
    ensures forall k :: 0 <= k < |parts| ==> ',' !in TrimAll(parts)[k] && IsTrimmed(TrimAll(parts)[k])
  {
    forall k | 0 <= k < |parts| ensures ',' !in TrimAll(parts)[k] {
      TrimKeepsOnly(parts[k], ',');
    }
  }

  /** Keeping the non-empty pieces of trimmed, comma-free pieces gives
      normal tags. */
  lemma FilterNormal(t: seq<string>)
    requires forall k :: 0 <= k < |t| ==> ',' !in t[k] && IsTrimmed(t[k])
    ensures NormalTags(Filter(t, NonEmpty))
  {
    var r := Filter(t, NonEmpty);
    forall k | 0 <= k < |r| ensures r[k] != "" && IsTrimmed(r[k]) && ',' !in r[k] {
      assert r[k] in r;
      var j :| 0 <= j < |t| && t[j] == r[k];
    }
  }

  /** Splitting blank text on commas gives the text itself. */
  lemma SplitBlank(s: string)
    requires IsBlank(s)
    ensures Split(s, ',') == [s]
  {
  }

  /** `Boolean` as a filter on strings. */
  predicate NonEmpty(x: string)
  {
    x != ""
  }

  /** `draft.tags.split(",").map((tag) => tag.trim()).filter(Boolean)`. */
  function ParseTags(s: string): (r: seq<string>)
    ensures NormalTags(r)
    ensures IsBlank(s) ==> r == []
  {
    var parts := Split(s, ',');
    var trimmed := TrimAll(parts);
    TrimAllCommaFree(parts);
    FilterNormal(trimmed);
    assert IsBlank(s) ==> trimmed == [""] by {
      if IsBlank(s) { SplitBlank(s); }
    }
    Filter(trimmed, NonEmpty)
  }

  /** Where the first comma of `a + "," + b` is when `a` has none. */
  lemma {:induction false} FirstCommaAfter(a: string, b: string)
    requires ',' !in a
    ensures IndexOfChar(a + "," + b, ',') == Some(|a|)
    decreases |a|
  {
    if |a| > 0 {
      assert (a + "," + b)[1..] == a[1..] + "," + b;
      assert a == [a[0]] + a[1..];
      FirstCommaAfter(a[1..], b);
    }
  }

  /** A piece without commas gives its trimmed text as the one tag, or no
      tag when it is blank. */
  lemma ParseTagsPiece(s: string)
    requires ',' !in s
    ensures ParseTags(s) == if IsBlank(s) then [] else [Trim(s)]
  {
    assert Split(s, ',') == [s];
    assert TrimAll([s]) == [Trim(s)];
  }

  /** Splitting at the first comma: the text before it is the first
      piece, and the rest splits on its own. */
  lemma SplitAfterComma(a: string, b: string)
    requires ',' !in a
    ensures Split(a + "," + b, ',') == [a] + Split(b, ',')
  {
    var s := a + "," + b;
    FirstCommaAfter(a, b);
    assert s[..|a|] == a && s[|a| + 1..] == b;
  }

  /** Trimming works piece by piece. */
  lemma TrimAllConcat(x: seq<string>, y: seq<string>)
    ensures TrimAll(x + y) == TrimAll(x) + TrimAll(y)
  {
  }

  /** Text before the first comma contributes its tags ahead of the tags of
      the rest, so the tags are the trimmed non-blank pieces in order. */
  lemma ParseTagsConcat(a: string, b: string)
    requires ',' !in a
    ensures ParseTags(a + "," + b) == ParseTags(a) + ParseTags(b)
  {
    SplitAfterComma(a, b);
    assert Split(a, ',') == [a];
    TrimAllConcat([a], Split(b, ','));
    FilterConcat(TrimAll([a]), TrimAll(Split(b, ',')), NonEmpty);
  }

  /** Tags written into the draft with `join(",")` come back unchanged. */
  lemma TagsRoundTrip(tags: seq<string>)
    requires NormalTags(tags)
    ensures ParseTags(Join(tags, ",")) == tags
  {
    if |tags| == 0 {
      assert Join(tags, ",") == "";
      assert IsBlank("");
    } else {
      assert "," == [','];
      SplitJoin(tags, ',');
      assert TrimAll(tags) == tags;
      FilterAll(tags, NonEmpty);
    }
  }

  /** The form state of the task editor. */
  datatype Draft = Draft(
    id: Option<string>,
    columnId: string,
    title: string,
    description: string,
    assignee: string,
    priority: string,
    tags: string,        // comma-separated
    dueDate: string)

  /** `openDraft(columnId, task?)`: a task's fields with its tags joined by
      commas, or the empty form (assignee "Jarvis", priority "medium"). */
  function OpenDraft(columnId: string, task: Option<Task>): (d: Draft)
    ensures task.None? ==> d == Draft(None, columnId, "", "", "Jarvis", "medium", "", "")
    ensures task.Some? ==> d.id == Some(task.value.id) && d.title == task.value.title &&
                           d.tags == Join(task.value.tags, ",")
    ensures task.Some? ==> d.columnId == columnId && d.description == task.value.description &&
                           d.assignee == task.value.assignee && d.priority == task.value.priority &&
                           d.dueDate == task.value.dueDate
  {
    match task
    case None => Draft(None, columnId, "", "", Assignees[0], "medium", "", "")
    case Some(t) => Draft(Some(t.id), columnId, t.title, t.description, t.assignee, t.priority,
                          Join(t.tags, ","), t.dueDate)
  }

  /** The task a draft describes, under the given id; the title is stored as
      typed (it only has to be non-blank). */
  function DraftTask(d: Draft, id: string): (t: Task)
    ensures t.id == id && t.title == d.title && t.tags == ParseTags(d.tags)
    ensures t.description == d.description && t.assignee == d.assignee && t.priority == d.priority &&
            t.dueDate == d.dueDate
  {
    Task(id, d.title, d.description, d.assignee, d.priority, ParseTags(d.tags), d.dueDate)
  }

  /** The `saveDraft` updater: a draft with an id overwrites that task and
      leaves the columns alone; a new draft is recorded under `newId`, which
      goes first in the draft's column, else the first column.  (A new draft
      on a board without columns makes the source throw; here it changes
      nothing.) */
  function SaveDraftUpdate(b: Board, d: Draft, newId: string): (r: Board)
    ensures r.id == b.id && r.name == b.name
    ensures Truthy(d.id) ==> r.columns == b.columns && r.tasks == b.tasks.Put(d.id.value, DraftTask(d, d.id.value))
    ensures ColumnIds(r.columns) == ColumnIds(b.columns)
  {
    if Truthy(d.id) then
      b.(tasks := b.tasks.Put(d.id.value, DraftTask(d, d.id.value)))
    else
      match IdIndexOrFirst(ColumnIds(b.columns), d.columnId)
      case None => b
      case Some(k) => b.(tasks := b.tasks.Put(newId, DraftTask(d, newId)), columns := PrependAt(b.columns, k, newId))
  }

  /** A new draft on a board with columns adds one task, first in its
      column (else the first column), and changes nothing else. */
  lemma SaveNewDraft(b: Board, d: Draft, newId: string)
    requires !Truthy(d.id) && |b.columns| > 0
    ensures var r := SaveDraftUpdate(b, d, newId);
            var k := IdIndexOrFirst(ColumnIds(b.columns), d.columnId).value;
            && r.tasks.Get(newId) == Some(DraftTask(d, newId))
            && (forall key :: key != newId ==> r.tasks.Get(key) == b.tasks.Get(key))
            && r.columns[k].taskIds == [newId] + b.columns[k].taskIds
            && (forall j :: 0 <= j < |b.columns| && j != k ==> r.columns[j] == b.columns[j])
  {
  }

  /** Saving keeps the board well formed (a new draft needs a fresh id). */
  lemma SaveDraftWellFormed(b: Board, d: Draft, newId: string)
    requires WellFormed(b) && (Truthy(d.id) || Fresh(b, newId))
    ensures WellFormed(SaveDraftUpdate(b, d, newId))
  {
    if !Truthy(d.id) && |b.columns| > 0 {
      PrependPlacement(b.columns, IdIndexOrFirst(ColumnIds(b.columns), d.columnId).value, newId);
    }
  }

  /** Opening a recorded task and saving the form untouched leaves the
      board as it was, tags included. */
  lemma OpenSaveRoundTrip(b: Board, columnId: string, key: string, newId: string)
    requires b.tasks.Get(key).Some? && b.tasks.entries[key].id == key && key != ""
    requires NormalTags(b.tasks.entries[key].tags)
    ensures SaveDraftUpdate(b, OpenDraft(columnId, b.tasks.Get(key)), newId) == b
  {
    var t := b.tasks.entries[key];
    var d := OpenDraft(columnId, Some(t));
    assert Truthy(d.id) && d.id.value == key;
    TagsRoundTrip(t.tags);
    assert DraftTask(d, key) == t;
    var tasks := b.tasks.Put(key, t);
    assert tasks.keys == b.tasks.keys;
    assert tasks.entries == b.tasks.entries;
    assert SaveDraftUpdate(b, d, newId) == b.(tasks := tasks);
  }


  /** The `deleteDraft` updater: the task leaves the record and every
      column. */
  function DeleteTask(b: Board, id: string): (r: Board)
    ensures r.id == b.id && r.name == b.name && r.tasks == b.tasks.Remove(id)
    ensures |r.columns| == |b.columns|
    ensures forall k :: 0 <= k < |b.columns| ==>
              r.columns[k] == b.columns[k].(taskIds := RemoveAll(b.columns[k].taskIds, id))
  {
    var cs := b.columns;
    b.(tasks := b.tasks.Remove(id),
       columns := seq(|cs|, k requires 0 <= k < |cs| => cs[k].(taskIds := RemoveAll(cs[k].taskIds, id))))
  }

  /** Filtering one id out of every column lists it nowhere and leaves the
      count of every other id alone. */
  lemma {:induction false} OccurrencesRemoveAll(a: seq<Column>, b: seq<Column>, id: string, x: string)
    requires |a| == |b|
    requires forall k :: 0 <= k < |a| ==> b[k].taskIds == RemoveAll(a[k].taskIds, id)
    ensures Occurrences(b, x) == if x == id then 0 else Occurrences(a, x)
    decreases |a|
  {
    if |a| > 0 {
      OccurrencesRemoveAll(a[1..], b[1..], id, x);
    }
  }

  /** Deleting a task: it is gone from the record and from every column,
      every other task is kept, every other id keeps its count, and the
      board stays well formed. */
  lemma DeleteTaskEffect(b: Board, id: string)
    ensures var r := DeleteTask(b, id);
            && r.tasks.Get(id) == None
            && Occurrences(r.columns, id) == 0
            && (forall key :: key != id ==> r.tasks.Get(key) == b.tasks.Get(key))
            && (forall x :: x != id ==> Occurrences(r.columns, x) == Occurrences(b.columns, x))
            && (WellFormed(b) ==> WellFormed(r))
  {
    var r := DeleteTask(b, id);
    forall x ensures Occurrences(r.columns, x) == if x == id then 0 else Occurrences(b.columns, x) {
      OccurrencesRemoveAll(b.columns, r.columns, id, x);
    }
    assert ColumnIds(r.columns) == ColumnIds(b.columns);
  }

  // ---------------------------------------------------------------------
  // The clipboard summary
  // ---------------------------------------------------------------------

  /** `- title`, and ` (@assignee)` when there is an assignee. */
  function CopyTaskLine(t: Task): (r: string)
    ensures |r| >= 2 + |t.title|
    ensures r[..2 + |t.title|] == "- " + t.title
    ensures t.assignee == "" <==> r == "- " + t.title
    ensures t.assignee != "" ==> r[2 + |t.title|..] == " (@" + t.assignee + ")"
  {
    var line := "- " + t.title + (if t.assignee != "" then " (@" + t.assignee + ")" else "");
    assert line[..2 + |t.title|] == "- " + t.title;
    assert line[2 + |t.title|..] == (if t.assignee != "" then " (@" + t.assignee + ")" else "");
    line
  }

  /** One clipboard line per task, in order. */
  function CopyLines(ts: seq<Task>): (r: seq<string>)
    ensures |r| == |ts| && forall k :: 0 <= k < |ts| ==> r[k] == CopyTaskLine(ts[k])
  {
    seq(|ts|, k requires 0 <= k < |ts| => CopyTaskLine(ts[k]))
  }

  /** `## title`, a newline, then `- <empty label>` when the column resolves
      no task, else one line per resolved task. */
  function CopySection(tasks: TaskRecord, c: Column, emptyLabel: string): (r: string)
    ensures |r| >= 4 + |c.title| && r[..4 + |c.title|] == "## " + c.title + "\n"
    ensures |ResolvedTasks(tasks, c.taskIds)| == 0 ==> r[4 + |c.title|..] == "- " + emptyLabel
    ensures |ResolvedTasks(tasks, c.taskIds)| > 0 ==>
              r[4 + |c.title|..] == Join(CopyLines(ResolvedTasks(tasks, c.taskIds)), "\n")
  {
    var ts := ResolvedTasks(tasks, c.taskIds);
    var head := "## " + c.title + "\n";
    var body := if |ts| == 0 then "- " + emptyLabel else Join(CopyLines(ts), "\n");
    assert (head + body)[..|head|] == head && (head + body)[|head|..] == body;
    head + body
  }

  /** The paragraphs of the clipboard text: a `# project / board` title,
      then one section per column, in column order. */
  function CopySummaryParts(projectName: string, b: Board, emptyLabel: string): (r: seq<string>)
    ensures |r| == |b.columns| + 1
    ensures r[0] == "# " + projectName + " / " + b.name
    ensures forall i :: 0 <= i < |b.columns| ==> r[i + 1] == CopySection(b.tasks, b.columns[i], emptyLabel)
  {
    var cs := b.columns;
    ["# " + projectName + " / " + b.name] +
      seq(|cs|, i requires 0 <= i < |cs| => CopySection(b.tasks, cs[i], emptyLabel))
  }

  /** `copySummary`'s text: the paragraphs separated by blank lines. */
  function CopySummary(projectName: string, b: Board, emptyLabel: string): string
  {
    Join(CopySummaryParts(projectName, b, emptyLabel), "\n\n")
  }

  /** A board without columns copies as its title line alone, and a column
      without resolvable tasks as its heading and the placeholder. */
  lemma CopySummaryShapes(projectName: string, b: Board, emptyLabel: string, c: Column)
    ensures b.columns == [] ==> CopySummary(projectName, b, emptyLabel) == "# " + projectName + " / " + b.name
    ensures ResolvedTasks(b.tasks, c.taskIds) == [] ==>
              CopySection(b.tasks, c, emptyLabel) == "## " + c.title + "\n- " + emptyLabel
  {
  }

  // ---------------------------------------------------------------------
  // Import and export
  // ---------------------------------------------------------------------

  datatype Lang = Zh | En
  datatype Theme = Dark | Light

  /** The part of the UI state that export writes and import reads. */
  datatype Snapshot = Snapshot(
    projects: seq<Project>,
    activeProjectId: string,
    activeBoardId: string,
    theme: Theme,
    lang: Lang)

  /** A parsed import file; each property may be missing. */
  datatype ImportFile = ImportFile(
    projects: Option<seq<Project>>,
    activeProjectId: Option<string>,
    activeBoardId: Option<string>,
    theme: Option<Theme>,
    lang: Option<Lang>)

  datatype ImportSource = Unparseable | Parsed(file: ImportFile)

  /** `importData`: rejected (the "import failed" notice, nothing changes)
      unless the file parses and has a non-empty `projects`; then it
      replaces the projects and takes each other setting only when present
      and non-empty. */
  function Import(s: Snapshot, src: ImportSource): (r: Option<Snapshot>)
    ensures r.None? <==> src.Unparseable? || src.file.projects.None? || |src.file.projects.value| == 0
    ensures r.Some? ==> r.value.projects == src.file.projects.value && |r.value.projects| > 0
    ensures r.Some? ==> r.value.activeProjectId ==
                          (if Truthy(src.file.activeProjectId) then src.file.activeProjectId.value else s.activeProjectId)
    ensures r.Some? ==> r.value.activeBoardId ==
                          (if Truthy(src.file.activeBoardId) then src.file.activeBoardId.value else s.activeBoardId)
    ensures r.Some? ==> r.value.theme == (if src.file.theme.Some? then src.file.theme.value else s.theme)
    ensures r.Some? ==> r.value.lang == (if src.file.lang.Some? then src.file.lang.value else s.lang)
  {
    match src
    case Unparseable => None
    case Parsed(f) =>
      if f.projects.None? || |f.projects.value| == 0 then None
      else Some(Snapshot(
        f.projects.value,
        if Truthy(f.activeProjectId) then f.activeProjectId.value else s.activeProjectId,
        if Truthy(f.activeBoardId) then f.activeBoardId.value else s.activeBoardId,
        if f.theme.Some? then f.theme.value else s.theme,
        if f.lang.Some? then f.lang.value else s.lang))
  }

  /** The payload `exportData` and `buildSyncPayload` write, read back. */
  function ExportFile(s: Snapshot): (f: ImportFile)
    ensures f.projects == Some(s.projects)
  {
    ImportFile(Some(s.projects), Some(s.activeProjectId), Some(s.activeBoardId), Some(s.theme), Some(s.lang))
  }

  /** Importing an export restores the exported state, whatever the state
      it is imported into, as long as there are projects and both ids are
      non-empty. */
  lemma ExportImportRoundTrip(s: Snapshot, into: Snapshot)
    requires |s.projects| > 0 && s.activeProjectId != "" && s.activeBoardId != ""
    ensures Import(into, Parsed(ExportFile(s))) == Some(s)
  {
  }

  /** The sync file the UI writes, as the scripts read it. */
  function ExportDocument(s: Snapshot, now: string): (d: FileDocument)
    ensures d.projects == Some(ProjectsToFile(s.projects)) && d.exportedAt == Some(now)
    ensures d.activeProjectId == Some(s.activeProjectId) && d.activeBoardId == Some(s.activeBoardId)
  {
    FileDocument(Some(ProjectsToFile(s.projects)), Some(s.activeProjectId), Some(s.activeBoardId), Some(now))
  }

  /** The project fallback, on exported projects: it picks the project
      the UI picks. */
  lemma ExportedProjectIndex(ps: seq<Project>, pid: string, fps: seq<FileProject>, r: FileProject)
    requires |ps| > 0 && fps == ProjectsToFile(ps)
    requires (exists i :: 0 <= i < |fps| && Some(fps[i].id) == Some(pid)) ==>
               Some(r.id) == Some(pid) &&
               exists i :: 0 <= i < |fps| && fps[i] == r &&
                 forall j :: 0 <= j < i ==> Some(fps[j].id) != Some(pid)
    requires (forall i :: 0 <= i < |fps| ==> Some(fps[i].id) != Some(pid)) ==> r == fps[0]
    ensures r == ProjectToFile(ps[ActiveProjectIndex(ps, pid).value])
  {
    var pi := ActiveProjectIndex(ps, pid).value;
    assert forall i :: 0 <= i < |fps| ==> fps[i].id == ps[i].id by {
      forall i | 0 <= i < |fps| ensures fps[i].id == ps[i].id {
        assert fps[i] == ProjectToFile(ps[i]);
      }
    }
    if exists i :: 0 <= i < |ps| && ps[i].id == pid {
      assert Some(fps[pi].id) == Some(pid);
      var fi :| 0 <= fi < |fps| && fps[fi] == r &&
        forall j :: 0 <= j < fi ==> Some(fps[j].id) != Some(pid);
      assert ps[fi].id == pid;
      assert fi == pi;
    } else {
      assert forall i :: 0 <= i < |fps| ==> Some(fps[i].id) != Some(pid);
    }
  }

  /** The board fallback, on one project's boards: the exported boards pick
      the board the UI picks. */
  lemma ExportedBoardIndex(boards: seq<Board>, bid: string, target: Option<string>, fbs: seq<FileBoard>, r: FileBoard)
    requires |boards| > 0 && fbs == BoardsToFile(boards) && target == Some(bid)
    requires if exists i :: 0 <= i < |fbs| && Some(fbs[i].id) == target
             then Some(r.id) == target &&
                  exists i :: 0 <= i < |fbs| && fbs[i] == r &&
                    forall j :: 0 <= j < i ==> Some(fbs[j].id) != target
             else r == fbs[0]
    ensures r == BoardToFile(boards[ActiveBoardIndex(boards, bid).value])
  {
    var bi := ActiveBoardIndex(boards, bid).value;
    assert forall i :: 0 <= i < |fbs| ==> fbs[i].id == boards[i].id by {
      forall i | 0 <= i < |fbs| ensures fbs[i].id == boards[i].id {
        assert fbs[i] == BoardToFile(boards[i]);
      }
    }
    if exists i :: 0 <= i < |boards| && boards[i].id == bid {
      assert Some(fbs[bi].id) == target;
      var fi :| 0 <= fi < |fbs| && fbs[fi] == r &&
        forall j :: 0 <= j < fi ==> Some(fbs[j].id) != target;
      assert boards[fi].id == bid;
      assert fi == bi;
    } else {
      assert forall i :: 0 <= i < |fbs| ==> Some(fbs[i].id) != target;
    }
  }

  /** Once the scripts have picked the export of project `p`, they pick
      the export of the board the UI picks in it. */
  lemma FileBoardOfProject(doc: FileDocument, p: Project, bid: string)
    requires FileActiveProject(doc) == Some(ProjectToFile(p)) && |p.boards| > 0
    requires doc.activeBoardId == Some(bid)
    ensures FileActiveBoard(doc) == Some(BoardToFile(p.boards[ActiveBoardIndex(p.boards, bid).value]))
  {
    var fb := FileActiveBoard(doc).value;
    ExportedBoardIndex(p.boards, bid, doc.activeBoardId, BoardsToFile(p.boards), fb);
  }

  /** The scripts see the board the UI shows: in an exported document the
      agent's project and board fallback picks the UI's active board. */
  lemma ExportedActiveBoard(s: Snapshot, now: string)
    requires ActiveBoard(s.projects, s.activeProjectId, s.activeBoardId).Some?
    ensures FileActiveBoard(ExportDocument(s, now)) ==
              Some(BoardToFile(ActiveBoard(s.projects, s.activeProjectId, s.activeBoardId).value))
  {
    var doc := ExportDocument(s, now);
    var fp := FileActiveProject(doc).value;
    ExportedProjectIndex(s.projects, s.activeProjectId, doc.projects.value, fp);
    FileBoardOfProject(doc, ActiveProject(s.projects, s.activeProjectId).value, s.activeBoardId);
  }


  // ---------------------------------------------------------------------
  // Applying an edit to the active board
  // ---------------------------------------------------------------------

  /** The board updaters the handlers pass to `updateBoard`. */
  datatype Edit =
    | QuickAddEdit(columnId: string, newId: string, title: string, assignee: string, priority: string)
    | WipEdit(columnId: string, next: Option<real>)
    | DragEdit(sourceId: string, targetId: string, activeId: string, overId: string)
    | SaveDraftEdit(draft: Draft, newId: string)
    | DeleteEdit(taskId: string)

  /** Runs one updater on a board; none of them renames the board. */
  function Apply(b: Board, e: Edit): (r: Board)
    ensures r.id == b.id && r.name == b.name
    ensures ColumnIds(r.columns) == ColumnIds(b.columns)
  {
    match e
    case QuickAddEdit(columnId, newId, title, assignee, priority) => QuickAdd(b, columnId, newId, title, assignee, priority)
    case WipEdit(columnId, next) => SetWipLimit(b, columnId, next)
    case DragEdit(sourceId, targetId, activeId, overId) => DragUpdate(b, sourceId, targetId, activeId, overId)
    case SaveDraftEdit(d, newId) => SaveDraftUpdate(b, d, newId)
    case DeleteEdit(taskId) =>
      var r := DeleteTask(b, taskId);
      assert ColumnIds(r.columns) == ColumnIds(b.columns);
      r
  }

  /** Every well-formedness-keeping updater keeps it: drag, limit and
      delete always, quick add and a new draft given a fresh id. */
  lemma ApplyWellFormed(b: Board, e: Edit)
    requires WellFormed(b)
    requires e.QuickAddEdit? ==> Fresh(b, e.newId)
    requires e.SaveDraftEdit? ==> Truthy(e.draft.id) || Fresh(b, e.newId)
    requires e.DragEdit? ==> FindColumnByTask(b.columns, e.activeId).Some? &&
                             FindColumnByTask(b.columns, e.activeId).value.id == e.sourceId
    ensures WellFormed(Apply(b, e))
  {
    match e
    case QuickAddEdit(columnId, newId, title, assignee, priority) =>
      if |b.columns| > 0 { QuickAddWellFormed(b, columnId, newId, title, assignee, priority); }
    case WipEdit(columnId, next) => SetWipLimitWellFormed(b, columnId, next);
    case DragEdit(sourceId, targetId, activeId, overId) =>
      var source := FindColumnByTask(b.columns, activeId).value;
      var i :| 0 <= i < |b.columns| && b.columns[i] == source;
      DistinctIndex(b.columns, i);
      assert ColumnIds(b.columns)[i] == source.id;
      DragUpdateWellFormed(b, sourceId, targetId, activeId, overId);
    case SaveDraftEdit(d, newId) => SaveDraftWellFormed(b, d, newId);
    case DeleteEdit(taskId) => DeleteTaskEffect(b, taskId);
  }

  /** The boards of one project after `updateBoard`: the updater runs on
      every board whose id is `bid`. */
  function UpdateBoards(boards: seq<Board>, bid: string, e: Edit): (r: seq<Board>)
    ensures |r| == |boards| && BoardIds(r) == BoardIds(boards)
    ensures forall k :: 0 <= k < |boards| ==> r[k] == if boards[k].id == bid then Apply(boards[k], e) else boards[k]
  {
    var r := seq(|boards|, k requires 0 <= k < |boards| => if boards[k].id == bid then Apply(boards[k], e) else boards[k]);
    assert BoardIds(r) == BoardIds(boards);
    r
  }

  /** `updateBoard` as written: it matches the raw `activeProjectId` and
      `activeBoardId`.  Projects with another id are unchanged, and so is
      every project's name. */
  function UpdateBoard(projects: seq<Project>, pid: string, bid: string, e: Edit): (r: seq<Project>)
    ensures |r| == |projects| && ProjectIds(r) == ProjectIds(projects)
    ensures forall k :: 0 <= k < |projects| ==>
              r[k] == if projects[k].id == pid then projects[k].(boards := UpdateBoards(projects[k].boards, bid, e))
                      else projects[k]
  {
    var r := seq(|projects|, k requires 0 <= k < |projects| =>
                   if projects[k].id == pid then projects[k].(boards := UpdateBoards(projects[k].boards, bid, e))
                   else projects[k]);
    assert ProjectIds(r) == ProjectIds(projects);
    r
  }

  /** With an `activeProjectId` that no project has, `updateBoard` changes
      nothing, whatever board the page shows. */
  lemma DanglingProjectChangesNothing(projects: seq<Project>, pid: string, bid: string, e: Edit)
    requires forall k :: 0 <= k < |projects| ==> projects[k].id != pid
    ensures UpdateBoard(projects, pid, bid, e) == projects
  {
  }

  /** A concrete case of the above: the page shows the only board (its
      project fallback), the user deletes its one card, and the card stays. */
  lemma LostEditExample()
    ensures var b := Board("board-1", "Sprint", [Column("col-todo", "To Do", ["t"], None)],
                           TaskRecord(["t"], map["t" := Task("t", "T", "", "Jarvis", "medium", [], "")]));
            var projects := [Project("p2", "Imported", [b])];
            && ActiveBoard(projects, "project-1", "board-1") == Some(b)
            && Apply(b, DeleteEdit("t")) != b
            && UpdateBoard(projects, "project-1", "board-1", DeleteEdit("t")) == projects
  {
    var b := Board("board-1", "Sprint", [Column("col-todo", "To Do", ["t"], None)],
                   TaskRecord(["t"], map["t" := Task("t", "T", "", "Jarvis", "medium", [], "")]));
    var projects := [Project("p2", "Imported", [b])];
    DanglingProjectChangesNothing(projects, "project-1", "board-1", DeleteEdit("t"));
    assert Apply(b, DeleteEdit("t")).columns[0].taskIds == [];
  }

  /** `updateBoard` on the board the page shows: it matches the ids of the
      resolved active project and board. */
  function UpdateActiveBoard(projects: seq<Project>, pid: string, bid: string, e: Edit): (r: seq<Project>)
    ensures |r| == |projects| && ProjectIds(r) == ProjectIds(projects)
    ensures ActiveBoard(projects, pid, bid).None? ==> r == projects
  {
    match ActiveProjectIndex(projects, pid)
    case None => projects
    case Some(i) =>
      match ActiveBoardIndex(projects[i].boards, bid)
      case None => projects
      case Some(j) => UpdateBoard(projects, projects[i].id, projects[i].boards[j].id, e)
  }

  /** The board the page shows after the edit is the edited board it showed
      before, and projects with another id are untouched. */
  lemma UpdateActiveBoardEffect(projects: seq<Project>, pid: string, bid: string, e: Edit)
    requires ActiveBoard(projects, pid, bid).Some?
    ensures var r := UpdateActiveBoard(projects, pid, bid, e);
            var i := ActiveProjectIndex(projects, pid).value;
            && ActiveBoard(r, pid, bid) == Some(Apply(ActiveBoard(projects, pid, bid).value, e))
            && (forall k :: 0 <= k < |projects| && projects[k].id != projects[i].id ==> r[k] == projects[k])
  {
    var r := UpdateActiveBoard(projects, pid, bid, e);
    var i := ActiveProjectIndex(projects, pid).value;
    var p := projects[i];
    var j := ActiveBoardIndex(p.boards, bid).value;
    SameIdsSameProjectIndex(projects, r, pid);
    assert r[i] == p.(boards := UpdateBoards(p.boards, p.boards[j].id, e));
    SameIdsSameBoardIndex(p.boards, r[i].boards, bid);
  }

  /** Which project is active depends only on the projects' ids. */
  lemma SameIdsSameProjectIndex(a: seq<Project>, b: seq<Project>, pid: string)
    requires ProjectIds(a) == ProjectIds(b)
    ensures ActiveProjectIndex(a, pid) == ActiveProjectIndex(b, pid)
  {
    assert |a| == |ProjectIds(a)| == |b|;
    assert forall k :: 0 <= k < |a| ==> a[k].id == ProjectIds(a)[k] == b[k].id;
  }

  /** Which board is active depends only on the boards' ids. */
  lemma SameIdsSameBoardIndex(a: seq<Board>, b: seq<Board>, bid: string)
    requires BoardIds(a) == BoardIds(b)
    ensures ActiveBoardIndex(a, bid) == ActiveBoardIndex(b, bid)
  {
    assert |a| == |BoardIds(a)| == |b|;
    assert forall k :: 0 <= k < |a| ==> a[k].id == BoardIds(a)[k] == b[k].id;
  }

  /** When both ids resolve, the corrected update is `updateBoard` itself. */
  lemma UpdateActiveBoardAgrees(projects: seq<Project>, pid: string, bid: string, e: Edit, i: nat, j: nat)
    requires i < |projects| && projects[i].id == pid && j < |projects[i].boards| && projects[i].boards[j].id == bid
    requires forall k :: 0 <= k < i ==> projects[k].id != pid
    ensures UpdateActiveBoard(projects, pid, bid, e) == UpdateBoard(projects, pid, bid, e)
  {
    var pi := ActiveProjectIndex(projects, pid).value;
    assert pi == i;
    var bj := ActiveBoardIndex(projects[i].boards, bid).value;
    assert projects[i].boards[bj].id == bid;
  }

  // ---------------------------------------------------------------------
  // The seed board
  // ---------------------------------------------------------------------

  /** The two names the assignee pickers offer; the first is the default. */
  const Assignees: seq<string> := ["Jarvis", "Ko先生"]

  /** Column headings and the empty-column label of each language. */
  function ColumnTitles(lang: Lang): (r: seq<string>)
    ensures |r| == 4
  {
    match lang
    case Zh => ["待办", "进行中", "评审", "完成"]
    case En => ["To Do", "In Progress", "Review", "Done"]
  }

  function EmptyLabel(lang: Lang): string
  {
    match lang
    case Zh => "暂无卡片"
    case En => "No cards"
  }

  /** `defaultBoard(lang)`: two Jarvis cards, one to do and one in
      progress, in four columns, the first three limited to 3 cards. */
  function DefaultBoard(lang: Lang): (b: Board)
    ensures b.id == "board-1" && ColumnIds(b.columns) == ["col-todo", "col-progress", "col-review", "col-done"]
  {
    var t := ColumnTitles(lang);
    var task1 := Task("task-1", "整理扩散模型论文清单", "优先CVPR/NeurIPS，标注代码与数据集",
                      "Jarvis", "high", ["CV", "Diffusion"], "");
    var task2 := Task("task-2", "看板UI交互验证", "确认拖拽与主题切换的体验",
                      "Jarvis", "medium", ["Product"], "");
    Board("board-1", "Research Sprint",
          [ Column("col-todo", t[0], ["task-1"], Some(3)),
            Column("col-progress", t[1], ["task-2"], Some(3)),
            Column("col-review", t[2], [], Some(3)),
            Column("col-done", t[3], [], None) ],
          TaskRecord(["task-1", "task-2"], map["task-1" := task1, "task-2" := task2]))
  }

  /** `defaultProject(lang)`. */
  function DefaultProject(lang: Lang): (p: Project)
    ensures p.id == "project-1" && p.boards == [DefaultBoard(lang)]
  {
    Project("project-1", "Jarvis Lab", [DefaultBoard(lang)])
  }

  /** The seed board is well formed: every card it lists is recorded and
      listed once. */
  lemma DefaultBoardWellFormed(lang: Lang)
    ensures WellFormed(DefaultBoard(lang))
  {
    var b := DefaultBoard(lang);
    var cs := b.columns;
    forall id ensures Occurrences(cs, id) <= 1 {
      assert cs[1..][1..][1..][1..] == [];
      assert Occurrences(cs[1..][1..][1..], id) == 0;
      assert Occurrences(cs[1..][1..], id) == 0;
      assert Occurrences(cs, id) == multiset(cs[0].taskIds)[id] + multiset(cs[1].taskIds)[id];
    }
    assert b.tasks.Valid();
  }

  /** No column of the seed board is over its limit. */
  lemma DefaultBoardUnderWip(lang: Lang)
    ensures forall k :: 0 <= k < 4 ==> !IsOverWip(DefaultBoard(lang).tasks, DefaultBoard(lang).columns[k])
  {
    var b := DefaultBoard(lang);
    forall k | 0 <= k < 4 ensures !IsOverWip(b.tasks, b.columns[k]) {
      assert |b.columns[k].taskIds| <= 1;
    }
  }

  /** The seed ids resolve to the seed board. */
  lemma DefaultBoardShown(lang: Lang)
    ensures ActiveBoard([DefaultProject(lang)], "project-1", "board-1") == Some(DefaultBoard(lang))
  {
    var ps := [DefaultProject(lang)];
    assert ProjectIds(ps) == ["project-1"];
    assert BoardIds(ps[0].boards) == ["board-1"];
  }

  // ---------------------------------------------------------------------
  // The drag handler as an edit
  // ---------------------------------------------------------------------

  /** The updater `handleDragEnd` passes to `updateBoard`, with the source
      and target columns it found on the shown board; `None` when it
      returns early. */
  function DragEditFor(b: Board, activeId: string, over: Option<string>): (r: Option<Edit>)
    ensures r.None? <==> DragEnd(b, activeId, over).None?
    ensures r.Some? ==> r.value.DragEdit? && DragEnd(b, activeId, over) == Some(Apply(b, r.value))
  {
    match DragColumns(b, activeId, over)
    case None => None
    case Some((sourceId, targetId)) => Some(DragEdit(sourceId, targetId, activeId, over.value))
  }

}
