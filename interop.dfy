/**
 * How the three programs meet: the web UI exports a document, and the
 * reply tool reads it.
 */
module Interop {
  import opened Wrappers
  import opened Text
  import opened Kanban
  import opened BoardOps
  import opened JarvisReply

  /** The state the page starts in, as it is exported. */
  function SeedSnapshot(): (s: Snapshot)
    ensures s.projects == [DefaultProject(Zh)]
  {
    Snapshot([DefaultProject(Zh)], "project-1", "board-1", Dark, Zh)
  }

  /** On the seed board the in-progress fallback picks the Jarvis card
      in progress. */
  lemma SeedLatestAssistantTask(lang: Lang)
    ensures LatestAssistantTask(DefaultBoard(lang).columns, DefaultBoard(lang).tasks) ==
              Some(Target("task-2", "看板UI交互验证"))
  {
    var b := DefaultBoard(lang);
    var cs := b.columns;
    var progress := GetColumnById(cs, "col-progress");
    assert cs[1].id == "col-progress";
    assert progress == Some(cs[1]);
    var ts := ResolvedTasks(b.tasks, cs[1].taskIds);
    assert ts == [b.tasks.entries["task-2"]];
    assert OccursAt(Lower("Jarvis"), "jarvis", 0);
    assert IsAssistantTask(ts[0]);
  }

  /** The reply tool, reading what the page exported, resolves a reply
      on the board the page shows. */
  lemma ReplyTargetOfExport(s: Snapshot, now: string, taskId: Option<string>, taskTitle: Option<string>)
    requires ActiveBoard(s.projects, s.activeProjectId, s.activeBoardId).Some?
    ensures var b := ActiveBoard(s.projects, s.activeProjectId, s.activeBoardId).value;
            ResolveTarget(Readable(ExportDocument(s, now)), taskId, taskTitle) == ResolveIn(b.columns, b.tasks, taskId, taskTitle)
  {
    ExportedActiveBoard(s, now);
  }

  /** A reply without `--taskId` or `--title`, written against the seed
      board's export, goes to the in-progress Jarvis card. */
  lemma SeedReplyTarget(now: string)
    ensures ResolveTarget(Readable(ExportDocument(SeedSnapshot(), now)), None, None) ==
              Some(Target("task-2", "看板UI交互验证"))
  {
    var b := DefaultBoard(Zh);
    DefaultBoardShown(Zh);
    ReplyTargetOfExport(SeedSnapshot(), now, None, None);
    SeedLatestAssistantTask(Zh);
    assert !ById(b.tasks, None);
  }
}
