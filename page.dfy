/**
 * The kanban page component's state, one field per `useState` hook that
 * the board logic reads or writes, and its handlers as methods.  Every
 * board edit goes through `updateBoard` as written, which matches the raw
 * `activeProjectId` and `activeBoardId`; its effect on the shown board is
 * stated for the states whose ids name a project and one of its boards.
 * `IntendedEdited` is the edit of the board the page shows.
 */
module KanbanPage {
  import opened Wrappers
  import opened Text
  import opened Kanban
  import opened Cli
  import opened BoardOps

  /** Every field of the page at one moment. */
  datatype PageState = PageState(
    lang: Lang,
    theme: Theme,
    projects: seq<Project>,
    activeProjectId: string,
    activeBoardId: string,
    activeTaskId: Option<string>,
    draft: Option<Draft>,
    notice: Option<string>,
    focusMode: bool,
    quickTitle: string,
    quickAssignee: string,
    quickPriority: string,
    wipEditColumnId: Option<string>,
    wipDraft: string)

  /** The notice shown when an import is rejected. */
  function ImportFailedNotice(lang: Lang): string
  {
    match lang
    case Zh => "导入失败，请检查文件格式"
    case En => "Import failed. Check the file format"
  }

  /** The text the WIP editor starts from: the limit when it is set and
      non-zero, else nothing. */
  function WipDraftOf(c: Column): (r: string)
    ensures c.wipLimit.None? || c.wipLimit.value == 0 <==> r == ""
    ensures c.wipLimit.Some? && c.wipLimit.value > 0 ==>
              (forall k :: 0 <= k < |r| ==> '0' <= r[k] <= '9') && DigitsValue(r) == c.wipLimit.value
    ensures c.wipLimit.Some? && c.wipLimit.value > 0 ==> r != "" && r[0] != '0'
  {
    if c.wipLimit.Some? && c.wipLimit.value != 0 then IntToString(c.wipLimit.value) else ""
  }

  /** `activeBoard`; `None` when the active project has no board. */
  function ShownOf(s: PageState): Option<Board>
  {
    ActiveBoard(s.projects, s.activeProjectId, s.activeBoardId)
  }

  /** The raw ids name a project and one of its boards, so the board
      `updateBoard` edits is the board the page shows. */
  predicate IdsResolve(s: PageState)
  {
    && ActiveProject(s.projects, s.activeProjectId).Some?
    && ActiveProject(s.projects, s.activeProjectId).value.id == s.activeProjectId
    && s.activeBoardId in BoardIds(ActiveProject(s.projects, s.activeProjectId).value.boards)
  }

  /** No project with the raw `activeProjectId` has a board with the raw
      `activeBoardId`: `updateBoard` finds nothing to edit. */
  predicate Targetless(s: PageState)
  {
    forall k :: 0 <= k < |s.projects| && s.projects[k].id == s.activeProjectId ==>
      s.activeBoardId !in BoardIds(s.projects[k].boards)
  }

  /** `updateBoard(updater)` as written. */
  function Edited(s: PageState, e: Edit): (r: PageState)
    ensures |r.projects| == |s.projects| && ProjectIds(r.projects) == ProjectIds(s.projects)
    ensures r.(projects := s.projects) == s
  {
    s.(projects := UpdateBoard(s.projects, s.activeProjectId, s.activeBoardId, e))
  }

  /** When the raw ids resolve, an edit turns the shown board into the
      edited board, and changes no other page field. */
  lemma EditedShows(s: PageState, e: Edit)
    requires IdsResolve(s)
    ensures ShownOf(s).Some?
    ensures ShownOf(Edited(s, e)) == Some(Apply(ShownOf(s).value, e))
  {
    var i := ActiveProjectIndex(s.projects, s.activeProjectId).value;
    var ids := BoardIds(s.projects[i].boards);
    var j :| 0 <= j < |ids| && ids[j] == s.activeBoardId;
    UpdateActiveBoardAgrees(s.projects, s.activeProjectId, s.activeBoardId, e, i, j);
    UpdateActiveBoardEffect(s.projects, s.activeProjectId, s.activeBoardId, e);
  }

  /** When no project with the raw id has the raw board id, the edit is
      lost: the page state is unchanged, whatever board it shows. */
  lemma EditedNoTarget(s: PageState, e: Edit)
    requires Targetless(s)
    ensures Edited(s, e) == s
  {
    var r := UpdateBoard(s.projects, s.activeProjectId, s.activeBoardId, e);
    forall k | 0 <= k < |s.projects| ensures r[k] == s.projects[k] {
      if s.projects[k].id == s.activeProjectId {
        var bs := s.projects[k].boards;
        assert forall m :: 0 <= m < |bs| ==> bs[m].id == BoardIds(bs)[m];
        assert UpdateBoards(bs, s.activeBoardId, e) == bs;
      }
    }
  }

  /** Both cases at once, for the step functions below. */
  lemma EditedEffect(s: PageState, e: Edit)
    ensures IdsResolve(s) ==> ShownOf(s).Some? && ShownOf(Edited(s, e)) == Some(Apply(ShownOf(s).value, e))
    ensures Targetless(s) ==> Edited(s, e) == s
  {
    if IdsResolve(s) { EditedShows(s, e); }
    if Targetless(s) { EditedNoTarget(s, e); }
  }

  /** The edit the page evidently means: `updateBoard` on the ids of the
      project and board it shows. */
  function IntendedEdited(s: PageState, e: Edit): (r: PageState)
    ensures |r.projects| == |s.projects| && ProjectIds(r.projects) == ProjectIds(s.projects)
    ensures r.(projects := s.projects) == s
    ensures ShownOf(s).None? ==> r == s
  {
    s.(projects := UpdateActiveBoard(s.projects, s.activeProjectId, s.activeBoardId, e))
  }

  /** The intended edit always reaches the shown board. */
  lemma IntendedEditedShows(s: PageState, e: Edit)
    requires ShownOf(s).Some?
    ensures ShownOf(IntendedEdited(s, e)) == Some(Apply(ShownOf(s).value, e))
  {
    UpdateActiveBoardEffect(s.projects, s.activeProjectId, s.activeBoardId, e);
  }

  /** Where the raw ids resolve, the page as written and the intended page
      make the same edit. */
  lemma IntendedEditedAgrees(s: PageState, e: Edit)
    requires IdsResolve(s)
    ensures IntendedEdited(s, e) == Edited(s, e)
  {
    var i := ActiveProjectIndex(s.projects, s.activeProjectId).value;
    var ids := BoardIds(s.projects[i].boards);
    var j :| 0 <= j < |ids| && ids[j] == s.activeBoardId;
    UpdateActiveBoardAgrees(s.projects, s.activeProjectId, s.activeBoardId, e, i, j);
  }

  /** Whether `addQuickTask` goes past its guards: a non-blank title and a
      shown board with a to-do column (else a first column). */
  predicate QuickAddGoes(s: PageState)
  {
    !IsBlank(s.quickTitle) && ShownOf(s).Some? && Truthy(TodoColumnId(ShownOf(s).value.columns))
  }

  function QuickAddEditOf(s: PageState, newId: string): Edit
    requires QuickAddGoes(s)
  {
    QuickAddEdit(TodoColumnId(ShownOf(s).value.columns).value, newId, s.quickTitle, s.quickAssignee, s.quickPriority)
  }

  /** `addQuickTask`, with `newId` for `getId()`: past the guards the
      title box clears, and the shown board gets the quick task when the
      raw ids resolve, while it is lost when they find nothing. */
  function AddQuickTaskStep(s: PageState, newId: string): (r: PageState)
    ensures !QuickAddGoes(s) ==> r == s
    ensures QuickAddGoes(s) ==> r == s.(projects := r.projects, quickTitle := "")
    ensures QuickAddGoes(s) && IdsResolve(s) ==>
              ShownOf(r) == Some(Apply(ShownOf(s).value, QuickAddEditOf(s, newId)))
    ensures QuickAddGoes(s) && Targetless(s) ==> r.projects == s.projects
  {
    if !QuickAddGoes(s) then s
    else
      EditedEffect(s, QuickAddEditOf(s, newId));
      Edited(s, QuickAddEditOf(s, newId)).(quickTitle := "")
  }

  /** `startEditWip(column)`. */
  function StartEditWipStep(s: PageState, column: Column): (r: PageState)
    ensures r == s.(wipEditColumnId := Some(column.id), wipDraft := WipDraftOf(column))
  {
    s.(wipEditColumnId := Some(column.id), wipDraft := WipDraftOf(column))
  }

  /** The value `saveWipLimit` stores from: `Number(wipDraft)` (passed in,
      `None` when not finite), and not a number for a blank draft. */
  function WipValue(wipDraft: string, number: Option<real>): (r: Option<real>)
    ensures IsBlank(wipDraft) ==> r.None?
    ensures !IsBlank(wipDraft) ==> r == number
  {
    if IsBlank(wipDraft) then None else number
  }

  /** `saveWipLimit`: without an open editor nothing happens; otherwise
      the editor closes, and the columns with the edited id get the new
      limit on the board `updateBoard` finds. */
  function SaveWipLimitStep(s: PageState, number: Option<real>): (r: PageState)
    ensures !Truthy(s.wipEditColumnId) ==> r == s
    ensures Truthy(s.wipEditColumnId) ==> r == s.(projects := r.projects, wipEditColumnId := None, wipDraft := "")
    ensures Truthy(s.wipEditColumnId) && IdsResolve(s) ==>
              ShownOf(s).Some? &&
              ShownOf(r) == Some(Apply(ShownOf(s).value, WipEdit(s.wipEditColumnId.value, WipValue(s.wipDraft, number))))
    ensures Truthy(s.wipEditColumnId) && Targetless(s) ==> r.projects == s.projects
  {
    if !Truthy(s.wipEditColumnId) then s
    else
      var e := WipEdit(s.wipEditColumnId.value, WipValue(s.wipDraft, number));
      EditedEffect(s, e);
      Edited(s, e).(wipEditColumnId := None, wipDraft := "")
  }

  /** `handleDragEnd`: when the handler goes past its guards the drag
      overlay clears, and the shown board becomes what `DragEnd` gives
      when the raw ids resolve. */
  function HandleDragEndStep(s: PageState, activeId: string, over: Option<string>): (r: PageState)
    ensures ShownOf(s).None? || DragEnd(ShownOf(s).value, activeId, over).None? ==> r == s
    ensures ShownOf(s).Some? && DragEnd(ShownOf(s).value, activeId, over).Some? ==>
              && r == s.(projects := r.projects, activeTaskId := None)
              && (IdsResolve(s) ==> ShownOf(r) == DragEnd(ShownOf(s).value, activeId, over))
              && (Targetless(s) ==> r.projects == s.projects)
  {
    match ShownOf(s)
    case None => s
    case Some(b) =>
      match DragEditFor(b, activeId, over)
      case None => s
      case Some(e) =>
        EditedEffect(s, e);
        Edited(s, e).(activeTaskId := None)
  }

  /** `openDraft(columnId, task?)`. */
  function OpenDraftStep(s: PageState, columnId: string, task: Option<Task>): (r: PageState)
    ensures r.draft == Some(OpenDraft(columnId, task)) && r.(draft := s.draft) == s
  {
    s.(draft := Some(OpenDraft(columnId, task)))
  }

  /** `saveDraft`, with `newId` for `getId()`: nothing happens without a
      draft or with a blank title; otherwise the editor closes, and the
      shown board gets the draft when the raw ids resolve. */
  function SaveDraftStep(s: PageState, newId: string): (r: PageState)
    ensures s.draft.None? || IsBlank(s.draft.value.title) ==> r == s
    ensures s.draft.Some? && !IsBlank(s.draft.value.title) ==>
              && r == s.(projects := r.projects, draft := None)
              && (IdsResolve(s) ==>
                    ShownOf(s).Some? && ShownOf(r) == Some(Apply(ShownOf(s).value, SaveDraftEdit(s.draft.value, newId))))
              && (Targetless(s) ==> r.projects == s.projects)
  {
    if s.draft.None? || IsBlank(s.draft.value.title) then s
    else
      var e := SaveDraftEdit(s.draft.value, newId);
      EditedEffect(s, e);
      Edited(s, e).(draft := None)
  }

  /** `deleteDraft`: only a draft of a recorded task (one with an id)
      deletes it, from the shown board when the raw ids resolve; the
      editor then closes. */
  function DeleteDraftStep(s: PageState): (r: PageState)
    ensures s.draft.None? || !Truthy(s.draft.value.id) ==> r == s
    ensures s.draft.Some? && Truthy(s.draft.value.id) ==>
              && r == s.(projects := r.projects, draft := None)
              && (IdsResolve(s) ==>
                    ShownOf(s).Some? && ShownOf(r) == Some(Apply(ShownOf(s).value, DeleteEdit(s.draft.value.id.value))))
              && (Targetless(s) ==> r.projects == s.projects)
  {
    if s.draft.None? || !Truthy(s.draft.value.id) then s
    else
      var e := DeleteEdit(s.draft.value.id.value);
      EditedEffect(s, e);
      Edited(s, e).(draft := None)
  }

  function SnapOf(s: PageState): Snapshot
  {
    Snapshot(s.projects, s.activeProjectId, s.activeBoardId, s.theme, s.lang)
  }

  /** `importData`: a rejected file only sets the notice; an accepted one
      replaces the exported part of the state and keeps the rest. */
  function ImportDataStep(s: PageState, source: ImportSource): (r: PageState)
    ensures Import(SnapOf(s), source).None? ==> r == s.(notice := Some(ImportFailedNotice(s.lang)))
    ensures Import(SnapOf(s), source).Some? ==>
              && SnapOf(r) == Import(SnapOf(s), source).value
              && r.(projects := s.projects, activeProjectId := s.activeProjectId, activeBoardId := s.activeBoardId,
                    theme := s.theme, lang := s.lang) == s
  {
    match Import(SnapOf(s), source)
    case None => s.(notice := Some(ImportFailedNotice(s.lang)))
    case Some(n) =>
      s.(projects := n.projects, activeProjectId := n.activeProjectId, activeBoardId := n.activeBoardId,
         theme := n.theme, lang := n.lang)
  }

  /** The effect that resets a dangling `activeBoardId`; the shown board
      does not change. */
  function RepairStep(s: PageState): (r: PageState)
    ensures r.(activeBoardId := s.activeBoardId) == s
    ensures ShownOf(s).Some? ==> ShownOf(r) == ShownOf(s)
    ensures ShownOf(s).Some? ==>
              exists k :: 0 <= k < |ActiveProject(s.projects, s.activeProjectId).value.boards| &&
                ActiveProject(s.projects, s.activeProjectId).value.boards[k].id == r.activeBoardId
  {
    var r := s.(activeBoardId := RepairedBoardId(s.projects, s.activeProjectId, s.activeBoardId));
    if ShownOf(s).Some? then RepairResolves(s.projects, s.activeProjectId, s.activeBoardId); r else r
  }

  class Page {
    var lang: Lang
    var theme: Theme
    var projects: seq<Project>
    var activeProjectId: string
    var activeBoardId: string
    var activeTaskId: Option<string>
    var draft: Option<Draft>
    var notice: Option<string>
    var focusMode: bool
    var quickTitle: string
    var quickAssignee: string
    var quickPriority: string
    var wipEditColumnId: Option<string>
    var wipDraft: string

    /** There is always a project: the seed has one and an import without
        projects is rejected. */
    predicate Valid()
      reads this
    {
      |projects| > 0
    }

    function View(): PageState
      reads this
    {
      PageState(lang, theme, projects, activeProjectId, activeBoardId, activeTaskId, draft, notice,
                focusMode, quickTitle, quickAssignee, quickPriority, wipEditColumnId, wipDraft)
    }

    /** The columns on screen. */
    function Visible(): (r: Option<seq<Column>>)
      reads this
      ensures r.Some? <==> ShownOf(View()).Some?
      ensures r.Some? ==> r.value == VisibleColumns(ShownOf(View()).value.columns, focusMode)
      ensures r.Some? && !focusMode ==> r.value == ShownOf(View()).value.columns
    {
      match ShownOf(View())
      case None => None
      case Some(b) => Some(VisibleColumns(b.columns, focusMode))
    }

    /** The text `copySummary` puts on the clipboard: the summary of the
        shown board under the active project's name. */
    function CopyText(): (r: Option<string>)
      reads this
      ensures r.Some? <==> ShownOf(View()).Some?
      ensures r.Some? ==>
                ActiveProject(projects, activeProjectId).Some? &&
                r.value == CopySummary(ActiveProject(projects, activeProjectId).value.name, ShownOf(View()).value, EmptyLabel(lang))
    {
      match ShownOf(View())
      case None => None
      case Some(b) => Some(CopySummary(ActiveProject(projects, activeProjectId).value.name, b, EmptyLabel(lang)))
    }

    /** The initial state: Chinese, dark, the seed project, its board shown. */
    constructor()
      ensures Valid()
      ensures View() == PageState(Zh, Dark, [DefaultProject(Zh)], "project-1", "board-1", None, None, None,
                                  false, "", Assignees[0], "medium", None, "")
      ensures ShownOf(View()) == Some(DefaultBoard(Zh))
    {
      lang := Zh;
      theme := Dark;
      projects := [DefaultProject(Zh)];
      activeProjectId := "project-1";
      activeBoardId := "board-1";
      activeTaskId := None;
      draft := None;
      notice := None;
      focusMode := false;
      quickTitle := "";
      quickAssignee := Assignees[0];
      quickPriority := "medium";
      wipEditColumnId := None;
      wipDraft := "";
      DefaultBoardShown(Zh);
    }

    /** The effect that resets a dangling `activeBoardId`. */
    method RepairActiveBoard()
      requires Valid()
      modifies this
      ensures Valid() && View() == RepairStep(old(View()))
    {
      activeBoardId := RepairedBoardId(projects, activeProjectId, activeBoardId);
    }

    method AddQuickTask(newId: string)
      requires Valid()
      modifies this
      ensures Valid() && View() == AddQuickTaskStep(old(View()), newId)
    {
      var s := View();
      if !QuickAddGoes(s) {
        return;
      }
      projects := UpdateBoard(projects, activeProjectId, activeBoardId, QuickAddEditOf(s, newId));
      quickTitle := "";
      assert View() == Edited(s, QuickAddEditOf(s, newId)).(quickTitle := "");
    }

    method StartEditWip(column: Column)
      modifies this
      ensures View() == StartEditWipStep(old(View()), column)
    {
      wipEditColumnId := Some(column.id);
      wipDraft := WipDraftOf(column);
    }

    /** `saveWipLimit`, with `number` for `Number(wipDraft)`. */
    method SaveWipLimit(number: Option<real>)
      requires Valid()
      modifies this
      ensures Valid() && View() == SaveWipLimitStep(old(View()), number)
    {
      if !Truthy(wipEditColumnId) {
        return;
      }
      var e := WipEdit(wipEditColumnId.value, WipValue(wipDraft, number));
      projects := UpdateBoard(projects, activeProjectId, activeBoardId, e);
      wipEditColumnId := None;
      wipDraft := "";
    }

    method HandleDragEnd(activeId: string, over: Option<string>)
      requires Valid()
      modifies this
      ensures Valid() && View() == HandleDragEndStep(old(View()), activeId, over)
    {
      var s := View();
      var b := ShownOf(s);
      if b.None? {
        return;
      }
      var e := DragEditFor(b.value, activeId, over);
      if e.None? {
        return;
      }
      projects := UpdateBoard(projects, activeProjectId, activeBoardId, e.value);
      activeTaskId := None;
      assert View() == Edited(s, e.value).(activeTaskId := None);
    }

    method OpenDraft(columnId: string, task: Option<Task>)
      modifies this
      ensures View() == OpenDraftStep(old(View()), columnId, task)
    {
      draft := Some(BoardOps.OpenDraft(columnId, task));
    }

    method SaveDraft(newId: string)
      requires Valid()
      modifies this
      ensures Valid() && View() == SaveDraftStep(old(View()), newId)
    {
      if draft.None? || IsBlank(draft.value.title) {
        return;
      }
      projects := UpdateBoard(projects, activeProjectId, activeBoardId, SaveDraftEdit(draft.value, newId));
      draft := None;
    }

    method DeleteDraft()
      requires Valid()
      modifies this
      ensures Valid() && View() == DeleteDraftStep(old(View()))
    {
      if draft.None? || !Truthy(draft.value.id) {
        return;
      }
      projects := UpdateBoard(projects, activeProjectId, activeBoardId, DeleteEdit(draft.value.id.value));
      draft := None;
    }

    method ImportData(source: ImportSource)
      requires Valid()
      modifies this
      ensures Valid() && View() == ImportDataStep(old(View()), source)
    {
      match Import(SnapOf(View()), source)
      case None =>
        notice := Some(ImportFailedNotice(lang));
      case Some(s) =>
        projects := s.projects;
        activeProjectId := s.activeProjectId;
        activeBoardId := s.activeBoardId;
        theme := s.theme;
        lang := s.lang;
    }
  }
}
