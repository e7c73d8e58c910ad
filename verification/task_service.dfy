/** The task service: builds the document for a new task and interprets the
    outcome of a delete. Both operations act on the task table. */
module TaskService {
  import opened Wrappers
  import opened Domain
  import opened TaskStore

  /** The request body of a create call. `None` is an absent field. */
  datatype TaskInput = TaskInput(
    todo: Option<string>,
    title: Option<string>,
    description: Option<string>,
    status: Option<string>,
    priority: Option<string>,
    dueDate: Option<int>)

  /** JavaScript truthiness of an optional string. */
  predicate Truthy(s: Option<string>)
  {
    s.Some? && s.value != ""
  }

  /** `s || fallback`; an absent value is read as the empty string, which the
      schema treats the same way. */
  function OrElse(s: Option<string>, fallback: string): string
  {
    if Truthy(s) then s.value else fallback
  }

  /** The payload of `createNewTask`: the legacy `todo` field wins over `title`,
      missing description/status/priority take their defaults, the owner is the
      caller and the due date is passed through. */
  function BuildPayload(data: TaskInput, userId: UserId): (p: TaskPayload)
    ensures Truthy(data.todo) ==> p.title == data.todo.value
    ensures !Truthy(data.todo) && data.title.Some? ==> p.title == data.title.value
    ensures !Truthy(data.todo) && data.title.None? ==> p.title == ""
    ensures Truthy(data.description) ==> p.description == data.description.value
    ensures !Truthy(data.description) ==> p.description == ""
    ensures Truthy(data.status) ==> p.status == data.status.value
    ensures !Truthy(data.status) ==> p.status == StatusName(DefaultStatus)
    ensures Truthy(data.priority) ==> p.priority == data.priority.value
    ensures !Truthy(data.priority) ==> p.priority == PriorityName(DefaultPriority)
    ensures p.owner == userId && p.dueDate == data.dueDate
  {
    TaskPayload(
      title := OrElse(data.todo, OrElse(data.title, "")),
      description := OrElse(data.description, ""),
      status := OrElse(data.status, "To-Do"),
      priority := OrElse(data.priority, "Medium"),
      dueDate := data.dueDate,
      owner := userId)
  }

  /** A create call without status or priority stores a To-Do task of Medium
      priority, owned by the caller, with no assignees; it fails only when no
      title is given (or the caller id is empty). */
  lemma {:induction false} CreateDefaults(data: TaskInput, userId: UserId, id: TaskId)
    requires !Truthy(data.status) && !Truthy(data.priority)
    ensures var r := Materialize(BuildPayload(data, userId), id);
      && (r.Ok? <==> (Truthy(data.todo) || Truthy(data.title)) && userId != "")
      && (r.Ok? ==> r.value.status == ToDo && r.value.priority == Medium &&
                    r.value.owner == userId && r.value.assignedTo == [] &&
                    r.value.dueDate == data.dueDate)
  {
    var p := BuildPayload(data, userId);
    StatusNamesRoundTrip(ToDo, p.status);
    PriorityNamesRoundTrip(Medium, p.priority);
  }

  const TaskNotFoundOrUnauthorized: string := "Task not found or unauthorized"

  /** The `deletedCount === 0` check of `removeTask`. */
  function CheckDeleted(res: DeleteResult): (r: Result<DeleteResult>)
    ensures r.Err? <==> res.deletedCount == 0
    ensures r.Err? ==> r.message == TaskNotFoundOrUnauthorized
    ensures r.Ok? ==> r.value == res
  {
    if res.deletedCount == 0 then Err(TaskNotFoundOrUnauthorized) else Ok(res)
  }

  /** `createNewTask`: returns exactly what the table's `create` returns. */
  method CreateNewTask(store: TaskTable, data: TaskInput, userId: UserId, newId: TaskId)
    returns (r: Result<Task>)
    requires store.Valid() && newId !in store.tasks
    modifies store
    ensures store.Valid()
    ensures r == Materialize(BuildPayload(data, userId), newId)
    ensures store.tasks == if r.Ok? then old(store.tasks)[newId := r.value] else old(store.tasks)
  {
    var payload := BuildPayload(data, userId);
    r := store.Create(payload, newId);
  }

  /** `getAllTasks`: the caller's tasks under the default filter and sort. */
  method GetAllTasks(store: TaskTable, userId: UserId) returns (r: seq<Task>)
    requires store.Valid()
    ensures forall t :: t in r <==> t in store.tasks.Values && Involves(t, userId)
    ensures DueSort.DistinctBy(r, TaskIdOf)
    ensures DatedInOrder(r, DueSort.Ascending)
  {
    r := store.FindByUserId(userId);
  }

  /** `removeTask`: the table's delete ignores `userId`, so the outcome and the
      new table depend on `taskId` alone. */
  method RemoveTask(store: TaskTable, taskId: TaskId, userId: UserId) returns (r: Result<DeleteResult>)
    requires store.Valid()
    modifies store
    ensures store.Valid()
    ensures store.tasks == Deleted(old(store.tasks), taskId)
    ensures r.Err? <==> taskId !in old(store.tasks)
    ensures r.Err? ==> r.message == TaskNotFoundOrUnauthorized
    ensures r.Ok? ==> r.value.deletedCount == 1
  {
    var res := store.Delete(taskId);
    r := CheckDeleted(res);
  }

  /** `removeTask` with the caller passed on to the store's filter: a task
      that does not exist and one the caller did not create fail alike, and
      leave the table as it was. */
  method RemoveOwnTask(store: TaskTable, taskId: TaskId, userId: UserId) returns (r: Result<DeleteResult>)
    requires store.Valid()
    modifies store
    ensures store.Valid()
    ensures store.tasks == DeletedOwned(old(store.tasks), taskId, userId)
    ensures r.Err? <==> !(taskId in old(store.tasks) && old(store.tasks)[taskId].owner == userId)
    ensures r.Err? ==> r.message == TaskNotFoundOrUnauthorized && store.tasks == old(store.tasks)
    ensures r.Ok? ==> r.value.deletedCount == 1
  {
    var res := store.DeleteOwned(taskId, userId);
    r := CheckDeleted(res);
  }
}
