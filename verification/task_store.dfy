/** The task repository: a collection of task documents updated in place by
    insert, `deleteOne`, `findByIdAndUpdate` with `$set`, and
    `findByIdAndUpdate` with `$addToSet`. */
module TaskStore {
  import opened Wrappers
  import opened Domain
  import opened DueSort

  /** Exact-match conditions on status and priority; `None` leaves that field
      unconstrained. */
  datatype TaskFilter = TaskFilter(status: Option<Status>, priority: Option<Priority>)

  const NoFilter: TaskFilter := TaskFilter(None, None)

  predicate Matches(f: TaskFilter, t: Task)
  {
    (f.status.None? || t.status == f.status.value) &&
    (f.priority.None? || t.priority == f.priority.value)
  }

  /** The `$or` of the per-user query: the user created the task or is among
      its assignees. */
  predicate Involves(t: Task, user: UserId)
  {
    t.owner == user || user in t.assignedTo
  }

  function TaskIdOf(t: Task): TaskId { t.id }

  function DueOf(t: Task): Option<int> { t.dueDate }

  /** `sort({ dueDate: 1 })` and `sort({ dueDate: -1 })`. Documents without a
      due date compare lowest, as in the store's own type order; the contracts
      below promise nothing about where they land. */
  function StoreOrder(dir: Direction): Order
  {
    if dir == Ascending then Order(Ascending, UndatedFirst) else Order(Descending, UndatedLast)
  }

  /** The dated elements of `r` are in the direction `dir`. */
  ghost predicate DatedInOrder(r: seq<Task>, dir: Direction)
  {
    forall i, j :: 0 <= i < j < |r| && r[i].dueDate.Some? && r[j].dueDate.Some? ==>
      if dir == Ascending then r[i].dueDate.value <= r[j].dueDate.value
      else r[i].dueDate.value >= r[j].dueDate.value
  }

  lemma StoreSortedIsDatedInOrder(r: seq<Task>, dir: Direction)
    requires SortedBy(r, DueOf, StoreOrder(dir))
    ensures DatedInOrder(r, dir)
  {
    forall i, j | 0 <= i < j < |r| && r[i].dueDate.Some? && r[j].dueDate.Some?
      ensures if dir == Ascending then r[i].dueDate.value <= r[j].dueDate.value
              else r[i].dueDate.value >= r[j].dueDate.value
    {
      assert Precedes(StoreOrder(dir), DueOf(r[i]), DueOf(r[j]));
    }
  }

  /** What `deleteOne` reports. */
  datatype DeleteResult = DeleteResult(deletedCount: nat)

  /** The `$set` document of an update: `None` fields are not mentioned.
      `dueDate := Some(None)` clears the due date; `owner` is the schema's
      `userID`, which an update body may name like any other path. */
  datatype TaskUpdate = TaskUpdate(
    title: Option<string>,
    description: Option<string>,
    status: Option<string>,
    priority: Option<string>,
    dueDate: Option<Option<int>>,
    owner: Option<UserId>,
    assignedTo: Option<seq<UserId>>)

  /** `runValidators`: the fields being set satisfy the schema. */
  predicate AcceptsUpdate(u: TaskUpdate)
  {
    (u.title.None? || u.title.value != "") &&
    (u.owner.None? || u.owner.value != "") &&
    (u.status.None? || ParseStatus(u.status.value).Some?) &&
    (u.priority.None? || ParsePriority(u.priority.value).Some?)
  }

  /** The document after `$set`: each mentioned field takes its new value,
      every other field keeps its old one. */
  function ApplyUpdate(t: Task, u: TaskUpdate): (r: Task)
    requires AcceptsUpdate(u)
    ensures r.id == t.id
    ensures r.owner == (if u.owner.Some? then u.owner.value else t.owner)
    ensures r.title == (if u.title.Some? then u.title.value else t.title)
    ensures r.description == (if u.description.Some? then u.description.value else t.description)
    ensures u.status.Some? ==> StatusName(r.status) == u.status.value
    ensures u.status.None? ==> r.status == t.status
    ensures u.priority.Some? ==> PriorityName(r.priority) == u.priority.value
    ensures u.priority.None? ==> r.priority == t.priority
    ensures r.dueDate == (if u.dueDate.Some? then u.dueDate.value else t.dueDate)
    ensures r.assignedTo == (if u.assignedTo.Some? then u.assignedTo.value else t.assignedTo)
  {
    t.(
      title := if u.title.Some? then u.title.value else t.title,
      description := if u.description.Some? then u.description.value else t.description,
      status := if u.status.Some? then ParseStatus(u.status.value).value else t.status,
      priority := if u.priority.Some? then ParsePriority(u.priority.value).value else t.priority,
      dueDate := if u.dueDate.Some? then u.dueDate.value else t.dueDate,
      owner := if u.owner.Some? then u.owner.value else t.owner,
      assignedTo := if u.assignedTo.Some? then u.assignedTo.value else t.assignedTo)
  }

  /** No identifier occurs twice. */
  ghost predicate NoDuplicates(s: seq<UserId>)
  {
    forall i, j :: 0 <= i < j < |s| ==> s[i] != s[j]
  }

  /** `$addToSet`: append `x` unless it is already present. */
  function AddToSet(s: seq<UserId>, x: UserId): (r: seq<UserId>)
    ensures x in r
    ensures forall y :: y in r <==> y in s || y == x
    ensures x in s ==> r == s
    ensures NoDuplicates(s) ==> NoDuplicates(r)
  {
    if x in s then s else s + [x]
  }

  /** The table after `deleteOne({ _id: id })`: the task goes whoever asks. */
  function Deleted(tasks: map<TaskId, Task>, id: TaskId): (r: map<TaskId, Task>)
    ensures id !in r
    ensures forall k :: k in r <==> k in tasks && k != id
    ensures forall k :: k in r ==> r[k] == tasks[k]
  {
    tasks - {id}
  }

  /** The table after `deleteOne({ _id: id, creatorId: caller })`: the task
      goes only when `caller` created it. */
  function DeletedOwned(tasks: map<TaskId, Task>, id: TaskId, caller: UserId): (r: map<TaskId, Task>)
    ensures forall k :: k in r <==> k in tasks && !(k == id && tasks[k].owner == caller)
    ensures forall k :: k in r ==> r[k] == tasks[k]
  {
    if id in tasks && tasks[id].owner == caller then tasks - {id} else tasks
  }

  /** As written: a caller who did not create a task still removes it. */
  lemma NonCreatorDeletes()
    ensures var tasks := map["t1" := Task("t1", "Draft", "", ToDo, Medium, None, "alice", [])];
      && tasks["t1"].owner != "mallory"
      && "t1" !in Deleted(tasks, "t1")
  {
  }

  /** Corrected: a deletion never removes a task the caller did not create,
      and removes the one the caller did. */
  lemma {:induction false} OnlyCreatorDeletes(tasks: map<TaskId, Task>, id: TaskId, caller: UserId)
    ensures forall k :: k in tasks && tasks[k].owner != caller ==>
      k in DeletedOwned(tasks, id, caller) && DeletedOwned(tasks, id, caller)[k] == tasks[k]
    ensures id in tasks && tasks[id].owner == caller ==> id !in DeletedOwned(tasks, id, caller)
  {
  }

  /** Adding the same member twice is the same as adding it once. */
  lemma AddToSetIdempotent(s: seq<UserId>, x: UserId)
    ensures AddToSet(AddToSet(s, x), x) == AddToSet(s, x)
  {
  }

  /** The task collection, keyed by document id. */
  class TaskTable {
    var tasks: map<TaskId, Task>

    /** Every stored document carries the id it is stored under. */
    ghost predicate Valid()
      reads this
    {
      forall id | id in tasks :: tasks[id].id == id
    }

    constructor ()
      ensures Valid() && tasks == map[]
    {
      tasks := map[];
    }

    /** `create`: validate the payload against the schema and insert it under
        the freshly generated id `newId`. */
    method Create(p: TaskPayload, newId: TaskId) returns (r: Result<Task>)
      requires Valid() && newId !in tasks
      modifies this
      ensures Valid()
      ensures r == Materialize(p, newId)
      ensures tasks == if r.Ok? then old(tasks)[newId := r.value] else old(tasks)
    {
      r := Materialize(p, newId);
      if r.Ok? {
        tasks := tasks[newId := r.value];
      }
    }

    /** `findById`. */
    method FindById(id: TaskId) returns (r: Option<Task>)
      requires Valid()
      ensures r.Some? <==> id in tasks
      ensures r.Some? ==> r.value == tasks[id] && r.value.id == id
    {
      r := if id in tasks then Some(tasks[id]) else None;
    }

    /** The documents a query matches, each once, in no particular order. */
    method Select(keep: Task -> bool) returns (r: seq<Task>)
      requires Valid()
      ensures forall t :: t in r <==> t in tasks.Values && keep(t)
      ensures DistinctBy(r, TaskIdOf)
    {
      var remaining := tasks.Keys;
      r := [];
      while remaining != {}
        invariant remaining <= tasks.Keys
        invariant forall t :: t in r <==> t in tasks.Values && t.id !in remaining && keep(t)
        invariant forall k :: 0 <= k < |r| ==> r[k].id !in remaining
        invariant DistinctBy(r, TaskIdOf)
        decreases remaining
      {
        var id :| id in remaining;
        var t := tasks[id];
        if keep(t) {
          r := r + [t];
        }
        remaining := remaining - {id};
      }
    }

    /** Sorts a query result and carries its properties over to the sorted
        sequence. */
    static method SortResult(found: seq<Task>, dir: Direction) returns (r: seq<Task>)
      requires DistinctBy(found, TaskIdOf)
      ensures forall t :: t in r <==> t in found
      ensures DistinctBy(r, TaskIdOf)
      ensures DatedInOrder(r, dir)
    {
      r := Sort(found, DueOf, StoreOrder(dir));
      SortCorrect(found, DueOf, StoreOrder(dir));
      SortDistinct(found, DueOf, StoreOrder(dir), TaskIdOf);
      StoreSortedIsDatedInOrder(r, dir);
      assert forall t :: t in r <==> t in multiset(found);
    }

    /** `findTasks(filters, sortOptions = { dueDate: 1 })`. */
    method FindTasks(f: TaskFilter, dir: Direction := Ascending) returns (r: seq<Task>)
      requires Valid()
      ensures forall t :: t in r <==> t in tasks.Values && Matches(f, t)
      ensures DistinctBy(r, TaskIdOf)
      ensures DatedInOrder(r, dir)
    {
      var found := Select(t => Matches(f, t));
      r := SortResult(found, dir);
    }

    /** `findByUserId(userId, filters = {}, sortBy = { dueDate: 1 })`: the
        tasks the user created or is assigned to, narrowed by the filters. */
    method FindByUserId(user: UserId, f: TaskFilter := NoFilter, dir: Direction := Ascending)
      returns (r: seq<Task>)
      requires Valid()
      ensures forall t :: t in r <==> t in tasks.Values && Involves(t, user) && Matches(f, t)
      ensures DistinctBy(r, TaskIdOf)
      ensures DatedInOrder(r, dir)
    {
      var found := Select(t => Involves(t, user) && Matches(f, t));
      r := SortResult(found, dir);
    }

    /** `deleteOne({ _id: taskId })`: removes the one document with that id, if
        any, and reports how many went. */
    method Delete(id: TaskId) returns (r: DeleteResult)
      requires Valid()
      modifies this
      ensures Valid()
      ensures r.deletedCount == if id in old(tasks) then 1 else 0
      ensures tasks == Deleted(old(tasks), id)
    {
      r := DeleteResult(if id in tasks then 1 else 0);
      tasks := Deleted(tasks, id);
    }

    /** `deleteOne({ _id: id, creatorId: caller })`: removes the task only
        when `caller` created it, and reports how many went. */
    method DeleteOwned(id: TaskId, caller: UserId) returns (r: DeleteResult)
      requires Valid()
      modifies this
      ensures Valid()
      ensures r.deletedCount == if id in old(tasks) && old(tasks)[id].owner == caller then 1 else 0
      ensures tasks == DeletedOwned(old(tasks), id, caller)
    {
      r := DeleteResult(if id in tasks && tasks[id].owner == caller then 1 else 0);
      tasks := DeletedOwned(tasks, id, caller);
    }

    /** `findByIdAndUpdate(taskId, { $set: u }, { new: true, runValidators: true })`:
        a rejected update throws and changes nothing; an unknown id yields
        nothing; otherwise the post-update document is stored and returned. */
    method Update(id: TaskId, u: TaskUpdate) returns (r: Result<Option<Task>>)
      requires Valid()
      modifies this
      ensures Valid()
      ensures r.Err? <==> !AcceptsUpdate(u)
      ensures r.Err? ==> r.message == TaskValidationFailed
      ensures r.Ok? ==> (r.value.Some? <==> id in old(tasks))
      ensures r.Ok? && r.value.Some? ==>
        r.value.value == ApplyUpdate(old(tasks)[id], u) && tasks == old(tasks)[id := r.value.value]
      ensures (r.Err? || r.value.None?) ==> tasks == old(tasks)
    {
      if !AcceptsUpdate(u) {
        return Err(TaskValidationFailed);
      }
      if id !in tasks {
        return Ok(None);
      }
      var t := ApplyUpdate(tasks[id], u);
      tasks := tasks[id := t];
      r := Ok(Some(t));
    }

    /** `findByIdAndUpdate(taskId, { $addToSet: { assignedTo: user } }, { new: true })`. */
    method AddAssignee(id: TaskId, user: UserId) returns (r: Option<Task>)
      requires Valid()
      modifies this
      ensures Valid()
      ensures r.Some? <==> id in old(tasks)
      ensures r.Some? ==>
        r.value == old(tasks)[id].(assignedTo := AddToSet(old(tasks)[id].assignedTo, user)) &&
        tasks == old(tasks)[id := r.value]
      ensures r.None? ==> tasks == old(tasks)
    {
      if id !in tasks {
        return None;
      }
      var t := tasks[id];
      var t' := t.(assignedTo := AddToSet(t.assignedTo, user));
      tasks := tasks[id := t'];
      r := Some(t');
    }
  }
}
