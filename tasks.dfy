/** The task store: a list of task records held in memory, with read queries over it
    and the operations that create, merge-update, archive, restore and delete records. */
module Tasks {
  import opened Outcomes
  import opened Seqs
  import opened Text

  /** A stored task. Timestamps (`createdAt`, `completedAt`) are milliseconds since
      the epoch; `dueDate` is the date text the form supplies. */
  datatype Task = Task(
    Id: int,
    title: string,
    description: string,
    categoryId: string,
    priority: string,
    dueDate: Option<string>,
    completed: bool,
    completedAt: Option<int>,
    createdAt: int,
    archived: bool)

  /** The fields a caller hands to create; `None` is a key the caller left out. */
  datatype TaskInput = TaskInput(
    title: string,
    description: Option<string>,
    categoryId: Option<string>,
    priority: Option<string>,
    dueDate: Option<string>)

  /** The object a caller hands to update: `Some(v)` is a key present with value `v`,
      `None` a key the patch does not have. `Some(None)` sets a nullable field to null. */
  datatype TaskPatch = TaskPatch(
    Id: Option<int>,
    title: Option<string>,
    description: Option<string>,
    categoryId: Option<string>,
    priority: Option<string>,
    dueDate: Option<Option<string>>,
    completed: Option<bool>,
    completedAt: Option<Option<int>>,
    createdAt: Option<int>,
    archived: Option<bool>)

  const DefaultCategory: string := "personal"
  const DefaultPriority: string := "medium"

  /** The patch archive sends: `{archived: true}`. */
  const ArchivePatch: TaskPatch :=
    TaskPatch(None, None, None, None, None, None, None, None, None, Some(true))

  /** The patch restore sends: `{archived: false}`. */
  const RestorePatch: TaskPatch :=
    TaskPatch(None, None, None, None, None, None, None, None, None, Some(false))

  /** JavaScript's `value || fallback` for an optional string: a missing key and the
      empty string are both falsy. */
  function OrElse(value: Option<string>, fallback: string): (r: string)
    ensures value.Some? && value.value != "" ==> r == value.value
    ensures r == fallback || (value.Some? && r == value.value)
    ensures fallback != "" ==> r != ""
  {
    if value.Some? && value.value != "" then value.value else fallback
  }

  /** `dueDate || null`: an empty date is stored as null. */
  function DateOrNull(value: Option<string>): (r: Option<string>)
    ensures value.Some? && value.value != "" ==> r == value
    ensures r == None || r == value
    ensures r.Some? ==> r.value != ""
  {
    if value.Some? && value.value != "" then value else None
  }

  /** The predicate `t => t.Id === id` the store looks records up with. */
  function HasId(id: int): Task -> bool
  {
    (t: Task) => t.Id == id
  }

  /** The records a delete of `id` keeps, when Ids are unique. */
  function NotId(id: int): Task -> bool
  {
    (t: Task) => t.Id != id
  }

  /** The records a bulk delete of `ids` keeps, when Ids are unique. */
  function NotListed(ids: seq<int>): Task -> bool
  {
    (t: Task) => t.Id !in ids
  }

  function TaskId(t: Task): int
  {
    t.Id
  }

  /** The Ids of the records, in store order. */
  function Ids(ts: seq<Task>): seq<int>
  {
    Keys(ts, TaskId)
  }

  /** No two stored records share an Id. */
  predicate UniqueIds(ts: seq<Task>)
  {
    forall i, j :: 0 <= i < j < |ts| ==> ts[i].Id != ts[j].Id
  }

  /** The Id create allocates: one more than the largest stored Id, 1 for an empty store. */
  function NextId(ts: seq<Task>): (id: int)
    ensures forall t :: t in ts ==> t.Id < id
    ensures |ts| == 0 ==> id == 1
    ensures |ts| > 0 ==> exists t :: t in ts && t.Id == id - 1
  {
    if |ts| > 0 then
      var m := Max(Ids(ts));
      assert forall t :: t in ts ==> t.Id <= m by {
        forall t | t in ts ensures t.Id <= m {
          var i :| 0 <= i < |ts| && ts[i] == t;
          assert Ids(ts)[i] == t.Id;
        }
      }
      m + 1
    else 1
  }

  /** The record create appends for `input` at time `now`. */
  function NewTask(ts: seq<Task>, input: TaskInput, now: int): (t: Task)
    ensures forall u :: u in ts ==> u.Id < t.Id
    ensures t.Id == NextId(ts)
    ensures t.title == input.title && t.createdAt == now
    ensures t.description == OrElse(input.description, "")
    ensures t.categoryId == OrElse(input.categoryId, DefaultCategory)
    ensures t.priority == OrElse(input.priority, DefaultPriority)
    ensures t.dueDate == DateOrNull(input.dueDate)
    ensures t.categoryId != "" && t.priority != ""
    ensures t.dueDate.Some? ==> t.dueDate.value != ""
    ensures !t.completed && t.completedAt == None && !t.archived
  {
    Task(
      NextId(ts),
      input.title,
      OrElse(input.description, ""),
      OrElse(input.categoryId, DefaultCategory),
      OrElse(input.priority, DefaultPriority),
      DateOrNull(input.dueDate),
      false,
      None,
      now,
      false)
  }

  /** The record update stores: `{...t, ...p, Id: t.Id}`, then the completion-timestamp
      rule, where only a patch `completed` that is present and true counts as truthy. */
  function Merge(t: Task, p: TaskPatch, now: int): (r: Task)
    ensures r.Id == t.Id
    ensures r.title == Pick(p.title, t.title) && r.description == Pick(p.description, t.description)
    ensures r.categoryId == Pick(p.categoryId, t.categoryId) && r.priority == Pick(p.priority, t.priority)
    ensures r.dueDate == Pick(p.dueDate, t.dueDate) && r.createdAt == Pick(p.createdAt, t.createdAt)
    ensures r.completed == Pick(p.completed, t.completed) && r.archived == Pick(p.archived, t.archived)
    ensures p.completed == Some(true) && !t.completed ==> r.completedAt == Some(now)
    ensures p.completed != Some(true) && t.completed ==> r.completedAt == None
    ensures (p.completed == Some(true)) == t.completed ==> r.completedAt == Pick(p.completedAt, t.completedAt)
  {
    var merged := Task(
      t.Id,
      Pick(p.title, t.title),
      Pick(p.description, t.description),
      Pick(p.categoryId, t.categoryId),
      Pick(p.priority, t.priority),
      Pick(p.dueDate, t.dueDate),
      Pick(p.completed, t.completed),
      Pick(p.completedAt, t.completedAt),
      Pick(p.createdAt, t.createdAt),
      Pick(p.archived, t.archived));
    if p.completed == Some(true) && !t.completed then merged.(completedAt := Some(now))
    else if p.completed != Some(true) && t.completed then merged.(completedAt := None)
    else merged
  }

  /** The timestamp is set exactly when the task is completed. */
  predicate CompletionConsistent(t: Task)
  {
    t.completed <==> t.completedAt.Some?
  }

  /** Filter of getCompleted: completed and not archived. */
  predicate IsDoneActive(t: Task)
  {
    t.completed && !t.archived
  }

  /** Filter of the open tasks the analytics and the category counts use. */
  predicate IsOpen(t: Task)
  {
    !t.completed && !t.archived
  }

  /** Filter of search, given the already lowered query. */
  predicate MatchesQuery(t: Task, lowered: string)
  {
    !t.archived && (Includes(Lower(t.title), lowered) || Includes(Lower(t.description), lowered))
  }

  /** The state bulk delete reaches: the ids are processed in order, each removes the
      first record with that Id, if any, and appends it to the removed records. */
  function BulkDeleteFrom(ts: seq<Task>, ids: seq<int>, removed: seq<Task>): (seq<Task>, seq<Task>)
    decreases |ids|
  {
    if ids == [] then (ts, removed)
    else
      var i := FindIndex(ts, HasId(ids[0]));
      if i == -1 then BulkDeleteFrom(ts, ids[1..], removed)
      else BulkDeleteFrom(RemoveAt(ts, i), ids[1..], removed + [ts[i]])
  }

  /** The in-memory store. Every operation works on the current contents of `tasks`. */
  class TaskStore {
    var tasks: seq<Task>

    /** The store starts from the records it is seeded with. */
    constructor (initial: seq<Task>)
      ensures tasks == initial
    {
      tasks := initial;
    }

    /** getAll: a copy of the list, every record included, archived ones too, in store order. */
    function GetAll(): (r: seq<Task>)
      reads this
      ensures r == tasks
    {
      tasks
    }

    /** getById: the first record with that Id, or not-found carrying the Id. */
    function GetById(id: int): (r: Outcome<Task, int>)
      reads this
      ensures r.NotFound? <==> forall t :: t in tasks ==> t.Id != id
      ensures r.NotFound? ==> r.id == id
      ensures r.Ok? ==> exists i :: 0 <= i < |tasks| && tasks[i] == r.value && r.value.Id == id
                                   && forall j :: 0 <= j < i ==> tasks[j].Id != id
    {
      var i := FindIndex(tasks, HasId(id));
      if i == -1 then NotFound(id) else Ok(tasks[i])
    }

    /** getByCategory: the non-archived records of that category. */
    function GetByCategory(categoryId: string): (r: seq<Task>)
      reads this
      ensures forall t :: t in r <==> t in tasks && t.categoryId == categoryId && !t.archived
    {
      Filter(tasks, (t: Task) => t.categoryId == categoryId && !t.archived)
    }

    /** getCompleted: the completed, non-archived records. */
    function GetCompleted(): (r: seq<Task>)
      reads this
      ensures forall t :: t in r <==> t in tasks && t.completed && !t.archived
    {
      Filter(tasks, IsDoneActive)
    }

    /** getArchived: the archived records, completed or not. */
    function GetArchived(): (r: seq<Task>)
      reads this
      ensures forall t :: t in r <==> t in tasks && t.archived
    {
      Filter(tasks, (t: Task) => t.archived)
    }

    /** search: the non-archived records whose title or description contains the query,
        both sides lowered. */
    function Search(query: string): (r: seq<Task>)
      reads this
      ensures forall t :: t in r <==>
                (t in tasks && !t.archived &&
                 ((exists i :: OccursAt(Lower(t.title), Lower(query), i)) ||
                  (exists i :: OccursAt(Lower(t.description), Lower(query), i))))
    {
      var lowered := Lower(query);
      Filter(tasks, (t: Task) => MatchesQuery(t, lowered))
    }

    /** create: append a record with the next Id and the defaults, and return it. */
    method Create(input: TaskInput, now: int) returns (t: Task)
      modifies this
      ensures t == NewTask(old(tasks), input, now)
      ensures tasks == old(tasks) + [t]
    {
      t := NewTask(tasks, input, now);
      tasks := tasks + [t];
    }

    /** update: merge the patch into the first record with that Id, in place. */
    method Update(id: int, patch: TaskPatch, now: int) returns (r: Outcome<Task, int>)
      modifies this
      ensures var i := FindIndex(old(tasks), HasId(id));
        if i == -1 then r == NotFound(id) && tasks == old(tasks)
        else r == Ok(Merge(old(tasks)[i], patch, now)) && tasks == old(tasks)[i := r.value]
    {
      var index := FindIndex(tasks, HasId(id));
      if index == -1 {
        return NotFound(id);
      }
      var updated := Merge(tasks[index], patch, now);
      tasks := tasks[index := updated];
      r := Ok(updated);
    }

    /** delete: splice out the first record with that Id and return it. */
    method Delete(id: int) returns (r: Outcome<Task, int>)
      modifies this
      ensures var i := FindIndex(old(tasks), HasId(id));
        if i == -1 then r == NotFound(id) && tasks == old(tasks)
        else r == Ok(old(tasks)[i]) && tasks == RemoveAt(old(tasks), i)
    {
      var index := FindIndex(tasks, HasId(id));
      if index == -1 {
        return NotFound(id);
      }
      r := Ok(tasks[index]);
      tasks := RemoveAt(tasks, index);
    }

    /** archive: update with `{archived: true}`. */
    method Archive(id: int, now: int) returns (r: Outcome<Task, int>)
      modifies this
      ensures var i := FindIndex(old(tasks), HasId(id));
        if i == -1 then r == NotFound(id) && tasks == old(tasks)
        else r == Ok(Merge(old(tasks)[i], ArchivePatch, now)) && tasks == old(tasks)[i := r.value]
    {
      r := Update(id, ArchivePatch, now);
    }

    /** restore: update with `{archived: false}`. */
    method Restore(id: int, now: int) returns (r: Outcome<Task, int>)
      modifies this
      ensures var i := FindIndex(old(tasks), HasId(id));
        if i == -1 then r == NotFound(id) && tasks == old(tasks)
        else r == Ok(Merge(old(tasks)[i], RestorePatch, now)) && tasks == old(tasks)[i := r.value]
    {
      r := Update(id, RestorePatch, now);
    }

    /** bulkDelete: for each id in turn, splice out the first record with it, if any,
        collecting the removed records. */
    method BulkDelete(ids: seq<int>) returns (removed: seq<Task>)
      modifies this
      ensures (tasks, removed) == BulkDeleteFrom(old(tasks), ids, [])
    {
      removed := [];
      for k := 0 to |ids|
        invariant BulkDeleteFrom(tasks, ids[k..], removed) == BulkDeleteFrom(old(tasks), ids, [])
      {
        assert ids[k..][0] == ids[k] && ids[k..][1..] == ids[k + 1..];
        var index := FindIndex(tasks, HasId(ids[k]));
        if index != -1 {
          removed := removed + [tasks[index]];
          tasks := RemoveAt(tasks, index);
        }
      }
    }
  }
}
