/** The logic of the task detail page. Its assignee resolution, initials and
    avatar colour are the task card's, repeated; what is its own is the
    possibly absent task and the creator's display name. */
module TaskDetail {
  import opened Wrappers
  import opened Domain
  import opened Text
  import opened ClientTypes
  import TaskCard

  /** `task ? (typeof task.creatorId === 'string' ? … : task.creatorId._id) : null`. */
  function DetailCreatorId(task: Option<ClientTask>): JsId
  {
    if task.Some? then
      match task.value.creator
      case CreatorIdRef(id) => Str(id)
      case CreatorObject(u) => Str(u.ident)
    else Null
  }

  /** `user?._id === creatorId`. */
  predicate DetailIsCreator(user: Option<Person>, task: Option<ClientTask>)
  {
    SignedInId(user) == DetailCreatorId(task)
  }

  /** The page offers delete exactly where the card does: a `null` creator id
      matches nobody, signed in or not, and a loaded task is judged as the
      card judges it. */
  lemma DetailDeleteAgreesWithCard(user: Option<Person>, task: Option<ClientTask>)
    ensures task.None? ==> !DetailIsCreator(user, task)
    ensures task.Some? ==> (DetailIsCreator(user, task) <==> TaskCard.ShowsDelete(user, task.value))
  {
  }

  /** `task?.dueDate && isPast(task.dueDate) && task.status !== 'Completed'`. */
  predicate DetailIsOverdue(task: Option<ClientTask>, now: int)
  {
    && task.Some?
    && task.value.dueDate.Some?
    && task.value.dueDate.value < now
    && task.value.status != Completed
  }

  /** The page agrees with the card on a loaded task and shows nothing
      overdue without one. */
  lemma DetailOverdueAgreesWithCard(task: Option<ClientTask>, now: int)
    ensures task.None? ==> !DetailIsOverdue(task, now)
    ensures task.Some? ==> (DetailIsOverdue(task, now) <==> TaskCard.IsOverdue(task.value, now))
  {
  }

  /** The assignees shown: none without a task. */
  function DetailAssignees(task: Option<ClientTask>, users: seq<Person>): (r: seq<TaskCard.AssigneeView>)
    ensures task.None? ==> r == []
    ensures task.Some? ==> |r| == |task.value.assignedTo|
    ensures task.Some? ==> forall i :: 0 <= i < |r| ==> r[i] == TaskCard.Resolve(task.value.assignedTo[i], users)
  {
    if task.None? then [] else TaskCard.GetAssignees(task.value, users)
  }

  const UnknownCreator: string := "Unknown"

  /** The "Created By" name. An id is looked up by `_id` only, and the
      first user holding it supplies the name; an unknown id, or an empty
      name, shows as "Unknown". Any other name shown is that of a user
      holding the id (or of the creator object itself). */
  function CreatorName(task: ClientTask, users: seq<Person>): (name: string)
    ensures name != ""
    ensures task.creator.CreatorObject? ==>
      name == (if task.creator.user.name != "" then task.creator.user.name else UnknownCreator)
    ensures task.creator.CreatorIdRef? && (forall u :: u in users ==> u.ident != task.creator.id) ==>
      name == UnknownCreator
    ensures task.creator.CreatorIdRef? ==>
      forall k ::
        (0 <= k < |users| && users[k].ident == task.creator.id &&
         forall j :: 0 <= j < k ==> users[j].ident != task.creator.id) ==>
        name == (if users[k].name != "" then users[k].name else UnknownCreator)
    ensures task.creator.CreatorIdRef? && name != UnknownCreator ==>
      exists u :: u in users && u.ident == task.creator.id && u.name == name
  {
    match task.creator
    case CreatorObject(u) => if u.name != "" then u.name else UnknownCreator
    case CreatorIdRef(id) =>
      match FindIndex(users, (u: Person) => u.ident == id)
      case None => UnknownCreator
      case Some(k) => if users[k].name != "" then users[k].name else UnknownCreator
  }
}
