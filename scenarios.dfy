/** Client runs of the store: what a caller of the services can conclude from their
    contracts alone. */
module Scenarios {
  import opened Outcomes
  import opened Tasks
  import opened Stats

  /** The patch the task list sends when a box is ticked: `{completed: true}`. */
  const CompletePatch: TaskPatch :=
    TaskPatch(None, None, None, None, None, None, Some(true), None, None, None)

  /** A task created on an empty store gets Id 1; completing it sets its completion
      time, and the one-task store is then 100% complete. */
  method CreateThenComplete(input: TaskInput, createdAt: int, doneAt: int, weekStart: int)
    returns (created: Task, stats: UserStats)
    ensures created.Id == 1 && !created.completed
    ensures stats.totalTasks == 1 && stats.completionRate == 100
  {
    var store := new TaskStore([]);
    created := store.Create(input, createdAt);
    var r := store.Update(created.Id, CompletePatch, doneAt);
    assert HasId(1)(store.tasks[0]);
    assert store.tasks == [created.(completed := true, completedAt := Some(doneAt))];
    stats := GetUserStats(store.GetAll(), doneAt, weekStart);
  }

  /** Deleting the newest task and creating another hands out the same Id again. */
  method IdReusedAfterDelete(first: TaskInput, second: TaskInput, now: int)
    returns (a: Task, b: Task)
    ensures a.Id == b.Id == 1
  {
    var store := new TaskStore([]);
    a := store.Create(first, now);
    assert HasId(a.Id)(store.tasks[0]);
    var gone := store.Delete(a.Id);
    b := store.Create(second, now);
  }

  /** Archiving a completed task keeps it completed but clears its completion time. */
  method ArchiveCompleted(input: TaskInput, now: int) returns (archived: Outcome<Task, int>)
    ensures archived.Ok? && archived.value.completed && archived.value.archived
    ensures archived.value.completedAt == None
  {
    var store := new TaskStore([]);
    var t := store.Create(input, now);
    assert HasId(t.Id)(store.tasks[0]);
    var done := store.Update(t.Id, CompletePatch, now);
    assert HasId(t.Id)(store.tasks[0]);
    archived := store.Archive(t.Id, now);
  }

  /** On an empty store a delete reports not-found with the Id and changes nothing. */
  method DeleteFromEmpty(id: int) returns (r: Outcome<Task, int>, left: seq<Task>)
    ensures r == NotFound(id) && left == []
  {
    var store := new TaskStore([]);
    r := store.Delete(id);
    left := store.GetAll();
  }
}
