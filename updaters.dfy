/**
 * The board updaters of the web UI as they are written: each copies the
 * board's columns and task record, then changes the copies step by step
 * (`tasks[id] = …`, `delete tasks[id]`, `unshift`, `splice`, `push`,
 * reassigning `taskIds`).  Every method is proved to compute the board
 * the corresponding BoardOps function describes, so the properties
 * proved there hold for these step-by-step versions.
 */
module Updaters {
  import opened Wrappers
  import opened Seqs
  import opened Kanban
  import opened Cli
  import opened BoardOps

  /** The first occurrence found by a left-to-right scan is the one
      `IndexOf` names. */
  lemma IndexOfAt<T>(s: seq<T>, x: T, i: nat)
    requires i < |s| && s[i] == x && x !in s[..i]
    ensures IndexOf(s, x) == Some(i)
  {
  }

  /** `columns.find((col) => col.id === id)`, as an index. */
  method FindColumn(columns: seq<Column>, id: string) returns (k: Option<nat>)
    ensures k == IndexOf(ColumnIds(columns), id)
  {
    var ids := ColumnIds(columns);
    var i := 0;
    while i < |columns|
      invariant 0 <= i <= |columns|
      invariant id !in ids[..i]
    {
      if columns[i].id == id {
        IndexOfAt(ids, id, i);
        return Some(i);
      }
      assert ids[..i + 1] == ids[..i] + [ids[i]];
      i := i + 1;
    }
    assert ids[..i] == ids;
    return None;
  }

  /** `columns.find((col) => col.id === id) ?? columns[0]`, as an index. */
  method FindColumnOrFirst(columns: seq<Column>, id: string) returns (k: Option<nat>)
    ensures k == IdIndexOrFirst(ColumnIds(columns), id)
  {
    k := FindColumn(columns, id);
    if k.None? && |columns| > 0 {
      k := Some(0);
    }
  }

  /** `ids.indexOf(x)`, with -1 as `None`. */
  method IndexOfId(ids: seq<string>, x: string) returns (k: Option<nat>)
    ensures k == IndexOf(ids, x)
  {
    var i := 0;
    while i < |ids|
      invariant 0 <= i <= |ids|
      invariant x !in ids[..i]
    {
      if ids[i] == x {
        IndexOfAt(ids, x, i);
        return Some(i);
      }
      assert ids[..i + 1] == ids[..i] + [ids[i]];
      i := i + 1;
    }
    assert ids[..i] == ids;
    return None;
  }

  /** Filtering one more element of a prefix appends it unless it is `x`. */
  lemma RemoveAllPrefixStep(ids: seq<string>, i: nat, x: string)
    requires i < |ids|
    ensures RemoveAll(ids[..i + 1], x) == RemoveAll(ids[..i], x) + (if ids[i] == x then [] else [ids[i]])
  {
    assert ids[..i + 1] == ids[..i] + [ids[i]];
    RemoveAllConcat(ids[..i], [ids[i]], x);
    assert [ids[i]][1..] == [];
  }

  /** `ids.filter((id) => id !== x)`. */
  method FilterOut(ids: seq<string>, x: string) returns (kept: seq<string>)
    ensures kept == RemoveAll(ids, x)
  {
    kept := [];
    var i := 0;
    while i < |ids|
      invariant 0 <= i <= |ids|
      invariant kept == RemoveAll(ids[..i], x)
    {
      RemoveAllPrefixStep(ids, i, x);
      if ids[i] != x {
        kept := kept + [ids[i]];
      }
      i := i + 1;
    }
    assert ids[..i] == ids;
  }

  /** The `addQuickTask` updater. */
  method AddQuickTaskUpdater(b: Board, columnId: string, newId: string, title: string, assignee: string, priority: string)
    returns (r: Board)
    ensures r == QuickAdd(b, columnId, newId, title, assignee, priority)
  {
    var tasks := b.tasks;
    var columns := b.columns;
    var target := FindColumnOrFirst(columns, columnId);
    tasks := tasks.Put(newId, QuickTask(newId, title, assignee, priority));
    if target.Some? {
      var k := target.value;
      columns := columns[k := columns[k].(taskIds := [newId] + columns[k].taskIds)];
    }
    r := b.(tasks := tasks, columns := columns);
  }

  /** The `handleDragEnd` updater, for the source and target column ids
      the handler found.  (A column id that the board does not have makes
      the source fail its non-null assertion; here the board is returned
      unchanged.) */
  method DragUpdater(b: Board, sourceId: string, targetId: string, activeId: string, overId: string)
    returns (r: Board)
    ensures r == DragUpdate(b, sourceId, targetId, activeId, overId)
  {
    var columns := b.columns;
    var source := FindColumn(columns, sourceId);
    var target := FindColumn(columns, targetId);
    if source.None? || target.None? {
      return b;
    }
    var si, ti := source.value, target.value;
    if sourceId == targetId && overId == sourceId {
      return b;
    }
    if sourceId == targetId {
      var oldIndex := IndexOfId(columns[si].taskIds, activeId);
      var newIndex := IndexOfId(columns[si].taskIds, overId);
      if oldIndex.Some? && newIndex.Some? {
        columns := columns[si := columns[si].(taskIds := ArrayMove(columns[si].taskIds, oldIndex.value, newIndex.value))];
      }
    } else {
      var kept := FilterOut(columns[si].taskIds, activeId);
      columns := columns[si := columns[si].(taskIds := kept)];
      var rest := FilterOut(columns[ti].taskIds, activeId);
      var insertIndex := IndexOfId(rest, overId);
      if insertIndex.Some? {
        rest := InsertAt(rest, insertIndex.value, activeId);
      } else {
        rest := rest + [activeId];
      }
      columns := columns[ti := columns[ti].(taskIds := rest)];
    }
    r := b.(columns := columns);
  }

  /** The `saveDraft` updater.  (A new draft on a board without columns
      makes the source throw; here the board is returned unchanged.) */
  method SaveDraftUpdater(b: Board, d: Draft, newId: string) returns (r: Board)
    ensures r == SaveDraftUpdate(b, d, newId)
  {
    var tasks := b.tasks;
    var columns := b.columns;
    var target := FindColumnOrFirst(columns, d.columnId);
    if Truthy(d.id) {
      tasks := tasks.Put(d.id.value, DraftTask(d, d.id.value));
    } else {
      if target.None? {
        return b;
      }
      tasks := tasks.Put(newId, DraftTask(d, newId));
      var k := target.value;
      columns := columns[k := columns[k].(taskIds := [newId] + columns[k].taskIds)];
    }
    r := b.(tasks := tasks, columns := columns);
  }

  /** The `deleteDraft` updater. */
  method DeleteUpdater(b: Board, id: string) returns (r: Board)
    ensures r == DeleteTask(b, id)
  {
    ghost var target := DeleteTask(b, id).columns;
    var tasks := b.tasks.Remove(id);
    var columns := b.columns;
    var i := 0;
    while i < |columns|
      invariant 0 <= i <= |columns| == |b.columns| == |target|
      invariant forall k :: 0 <= k < i ==> columns[k] == target[k]
      invariant forall k :: i <= k < |columns| ==> columns[k] == b.columns[k]
    {
      var kept := FilterOut(columns[i].taskIds, id);
      columns := columns[i := columns[i].(taskIds := kept)];
      i := i + 1;
    }
    assert columns == target;
    r := b.(tasks := tasks, columns := columns);
  }
}
