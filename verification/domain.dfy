/** The document shapes of the backend (Mongoose schemas for Task and User):
    enumerations, defaults, required fields and the validation a document
    undergoes when it is created. */
module Domain {
  import opened Wrappers

  type UserId = string
  type TaskId = string

  /** The `status` enumeration of a task. */
  datatype Status = ToDo | InProgress | Completed

  /** The `priority` enumeration of a task. */
  datatype Priority = Low | Medium | High

  /** The wire spelling of a status. */
  function StatusName(s: Status): string
  {
    match s
    case ToDo => "To-Do"
    case InProgress => "In-Progress"
    case Completed => "Completed"
  }

  /** The schema's `enum` check on a status string. */
  function ParseStatus(name: string): (r: Option<Status>)
    ensures r.Some? ==> name == StatusName(r.value)
    ensures r.None? ==> forall s :: StatusName(s) != name
  {
    if name == "To-Do" then Some(ToDo)
    else if name == "In-Progress" then Some(InProgress)
    else if name == "Completed" then Some(Completed)
    else None
  }

  /** The wire spelling of a priority. */
  function PriorityName(p: Priority): string
  {
    match p
    case Low => "Low"
    case Medium => "Medium"
    case High => "High"
  }

  /** The schema's `enum` check on a priority string. */
  function ParsePriority(name: string): (r: Option<Priority>)
    ensures r.Some? ==> name == PriorityName(r.value)
    ensures r.None? ==> forall p :: PriorityName(p) != name
  {
    if name == "Low" then Some(Low)
    else if name == "Medium" then Some(Medium)
    else if name == "High" then Some(High)
    else None
  }

  /** Every status is accepted under its own name, and only under it. */
  lemma StatusNamesRoundTrip(s: Status, name: string)
    ensures ParseStatus(StatusName(s)) == Some(s)
    ensures ParseStatus(name) == Some(s) <==> name == StatusName(s)
  {
  }

  /** Every priority is accepted under its own name, and only under it. */
  lemma PriorityNamesRoundTrip(p: Priority, name: string)
    ensures ParsePriority(PriorityName(p)) == Some(p)
    ensures ParsePriority(name) == Some(p) <==> name == PriorityName(p)
  {
  }

  const DefaultStatus: Status := ToDo
  const DefaultPriority: Priority := Medium

  /** A stored task. `owner` is the creator (written `userID` by the schema
      and the service, queried as `creatorId` by the repository);
      `assignedTo` is the list of assignees the repository maintains. */
  datatype Task = Task(
    id: TaskId,
    title: string,
    description: string,
    status: Status,
    priority: Priority,
    dueDate: Option<int>,
    owner: UserId,
    assignedTo: seq<UserId>)

  /** The raw document handed to `create`: status and priority are still
      strings, and any field may be empty. */
  datatype TaskPayload = TaskPayload(
    title: string,
    description: string,
    status: string,
    priority: string,
    dueDate: Option<int>,
    owner: UserId)

  /** The message of a rejected document (the library's text is abstracted). */
  const TaskValidationFailed: string := "Task validation failed"

  /** A payload the schema accepts: a title and an owner are present and the
      enumerations hold. */
  predicate AcceptsPayload(p: TaskPayload)
  {
    p.title != "" && p.owner != "" &&
    ParseStatus(p.status).Some? && ParsePriority(p.priority).Some?
  }

  /** Schema validation and casting of a new task document, with an empty
      assignee list. */
  function Materialize(p: TaskPayload, id: TaskId): (r: Result<Task>)
    ensures r.Ok? <==> AcceptsPayload(p)
    ensures r.Err? ==> r.message == TaskValidationFailed
    ensures r.Ok? ==>
      && r.value.id == id
      && r.value.title == p.title
      && r.value.description == p.description
      && StatusName(r.value.status) == p.status
      && PriorityName(r.value.priority) == p.priority
      && r.value.dueDate == p.dueDate
      && r.value.owner == p.owner
      && r.value.assignedTo == []
  {
    match (ParseStatus(p.status), ParsePriority(p.priority))
    case (Some(s), Some(pr)) =>
      if p.title != "" && p.owner != "" then
        Ok(Task(id, p.title, p.description, s, pr, p.dueDate, p.owner, []))
      else Err(TaskValidationFailed)
    case _ => Err(TaskValidationFailed)
  }

  /** An opaque password hash: a value of a different type from the plaintext,
      so a stored credential can never be the password itself. `bcrypt.compare`
      succeeds exactly on the password it was made from. */
  datatype Credential = Hashed(secret: string)

  /** A stored user: name, unique email and hashed password are required. */
  datatype User = User(id: UserId, name: string, email: string, password: Credential)

  /** The schema's required fields of a user. */
  predicate UserComplete(u: User)
  {
    u.name != "" && u.email != ""
  }
}
