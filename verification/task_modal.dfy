/** The task form: its validation schema, who may edit which fields, the
    payloads it sends on submit and the assignment calls that follow a
    creation. Dates are timestamps; "today" is the timestamp of the current
    day's local midnight, passed in. */
module TaskModal {
  import opened Wrappers
  import opened Domain
  import opened Text
  import opened ClientTypes
  import opened Constants
  import TaskCard
  import TaskDetail
  import TaskService

  /** The form's values. `dueDate` is `None` when the date field is empty;
      `description` and `assignedTo` are optional in the schema. */
  datatype FormValues = FormValues(
    title: string,
    description: Option<string>,
    status: string,
    priority: string,
    dueDate: Option<int>,
    assignedTo: Option<seq<UserId>>)

  /** The schema's issues, one kind per rule. */
  datatype FormError =
    | TitleRequired
    | TitleTooLong
    | BadStatus(received: string)
    | BadPriority(received: string)
    | DueInPast

  const MaxTitleLength: nat := 100

  /** `' | '`-joined quoted options, as in the enum issue's message. */
  function QuotedOptions(options: seq<string>): string
  {
    if options == [] then ""
    else if |options| == 1 then "'" + options[0] + "'"
    else "'" + options[0] + "' | " + QuotedOptions(options[1..])
  }

  /** The message shown under the field. */
  function Message(e: FormError): (m: string)
    ensures m != ""
  {
    match e
    case TitleRequired => "Title is required"
    case TitleTooLong => "Title must be less than 100 characters"
    case BadStatus(v) =>
      "Invalid enum value. Expected " + QuotedOptions(TaskStatuses) + ", received '" + v + "'"
    case BadPriority(v) =>
      "Invalid enum value. Expected " + QuotedOptions(TaskPriorities) + ", received '" + v + "'"
    case DueInPast => "Due date cannot be in the past"
  }

  /** An empty date passes; a given one must not be before today's midnight. */
  predicate DueDateAccepted(due: Option<int>, today: int)
  {
    due.None? || due.value >= today
  }

  /** The reference: what the schema accepts. The title's length is
      JavaScript's, in UTF-16 code units. */
  predicate FormValid(v: FormValues, today: int)
  {
    && 1 <= Utf16Length(v.title) <= MaxTitleLength
    && v.status in TaskStatuses
    && v.priority in TaskPriorities
    && DueDateAccepted(v.dueDate, today)
  }

  /** `taskSchema`: every failing rule, in field order. */
  function Validate(v: FormValues, today: int): (errs: seq<FormError>)
    ensures errs == [] <==> FormValid(v, today)
    ensures TitleRequired in errs <==> v.title == ""
    ensures TitleTooLong in errs <==> Utf16Length(v.title) > MaxTitleLength
    ensures BadStatus(v.status) in errs <==> v.status !in TaskStatuses
    ensures BadPriority(v.priority) in errs <==> v.priority !in TaskPriorities
    ensures DueInPast in errs <==> !DueDateAccepted(v.dueDate, today)
  {
    (if Utf16Length(v.title) < 1 then [TitleRequired] else [])
    + (if Utf16Length(v.title) > MaxTitleLength then [TitleTooLong] else [])
    + (if v.status in TaskStatuses then [] else [BadStatus(v.status)])
    + (if v.priority in TaskPriorities then [] else [BadPriority(v.priority)])
    + (if DueDateAccepted(v.dueDate, today) then [] else [DueInPast])
  }

  /** The title rule alone: a title is accepted iff it has 1 to 100 UTF-16
      code units, whatever the other fields hold. A title without astral
      characters is measured by its characters; one with them by more. */
  lemma TitleRule(v: FormValues, today: int)
    ensures (TitleRequired !in Validate(v, today) && TitleTooLong !in Validate(v, today))
            <==> 1 <= Utf16Length(v.title) <= 100
    ensures (forall i :: 0 <= i < |v.title| ==> !Astral(v.title[i])) ==>
      (TitleTooLong in Validate(v, today) <==> |v.title| > 100)
    ensures (exists i :: 0 <= i < |v.title| && Astral(v.title[i])) ==> Utf16Length(v.title) > |v.title|
  {
    Utf16LengthCountsAstral(v.title);
  }

  /** Fifty-one copies of an emoji are 102 code units: too long, although
      they are only 51 characters. */
  lemma AstralTitleTooLong(today: int)
    ensures var v := FormValues(seq(51, _ => '\U{1F600}'), None, "To-Do", "Medium", None, None);
      |v.title| == 51 && TitleTooLong in Validate(v, today)
  {
    var t: string := seq(51, _ => '\U{1F600}');
    assert forall i :: 0 <= i < |t| ==> t[i] == '\U{1F600}';
    Utf16LengthAllAstral(t);
  }

  /** `task && (typeof task.creatorId === 'string' ? … : task.creatorId._id)`:
      without a task, the absent task itself, which the dashboard passes as
      `null`. */
  function ModalCreatorId(task: Option<ClientTask>): JsId
  {
    match task
    case None => Null
    case Some(t) =>
      match t.creator
      case CreatorIdRef(id) => Str(id)
      case CreatorObject(u) => Str(u.ident)
  }

  /** `isCreator = user?._id === creatorId`. */
  predicate ModalIsCreator(user: Option<Person>, task: Option<ClientTask>)
  {
    SignedInId(user) == ModalCreatorId(task)
  }

  /** `canEditAllFields = !isEditMode || isCreator`, with `isEditMode = !!task`. */
  predicate CanEditAllFields(user: Option<Person>, task: Option<ClientTask>)
  {
    task.None? || ModalIsCreator(user, task)
  }

  /** Editing rights agree with the card and the detail page: whoever is
      offered the delete action may edit every field of that task, everybody
      else only its status, and a new task is editable throughout. */
  lemma EditRightsAreDeleteRights(user: Option<Person>, task: ClientTask)
    ensures CanEditAllFields(user, Some(task)) <==> TaskCard.ShowsDelete(user, task)
    ensures CanEditAllFields(user, Some(task)) <==> TaskDetail.DetailIsCreator(user, Some(task))
    ensures CanEditAllFields(user, None)
  {
  }

  /** What an edit sends. */
  datatype UpdatePayload = FullForm(values: FormValues) | StatusOnly(status: string)

  /** An assignee who is not the creator sends only the status. */
  function UpdatePayloadFor(user: Option<Person>, task: ClientTask, data: FormValues): (r: UpdatePayload)
    ensures r.StatusOnly? <==> !TaskCard.IsCreator(user, task)
    ensures r.StatusOnly? ==> r.status == data.status
    ensures r.FullForm? ==> r.values == data
  {
    if CanEditAllFields(user, Some(task)) then FullForm(data) else StatusOnly(data.status)
  }

  /** The body of a create call; `dueDate` is `None` when the field is left
      out of the body. */
  datatype CreateBody = CreateBody(
    title: string,
    description: string,
    status: string,
    priority: string,
    dueDate: Option<int>)

  /** `createData` describes `data`. */
  predicate DescribesForm(body: CreateBody, data: FormValues)
  {
    && body.title == data.title
    && body.description == (if data.description.Some? then data.description.value else "")
    && body.status == data.status
    && body.priority == data.priority
    && body.dueDate == data.dueDate
  }

  /** Builds `createData`: description defaults to the empty string and the
      due date is added only when one was entered. */
  method BuildCreateData(data: FormValues) returns (body: CreateBody)
    ensures DescribesForm(body, data)
  {
    body := CreateBody(
      data.title,
      if data.description.Some? && data.description.value != "" then data.description.value else "",
      data.status,
      data.priority,
      None);
    if data.dueDate.Some? {
      body := body.(dueDate := data.dueDate);
    }
  }

  /** The create call's body as the server reads it. */
  function AsTaskInput(body: CreateBody): TaskService.TaskInput
  {
    TaskService.TaskInput(None, Some(body.title), Some(body.description),
      Some(body.status), Some(body.priority), body.dueDate)
  }

  /** A form the schema accepts yields a create call the server's task schema
      accepts, storing exactly the form's values for a signed-in caller. */
  lemma {:induction false} ValidFormIsStorable(data: FormValues, body: CreateBody, today: int, userId: UserId, id: TaskId)
    requires FormValid(data, today) && DescribesForm(body, data) && userId != ""
    ensures var r := Materialize(TaskService.BuildPayload(AsTaskInput(body), userId), id);
      && r.Ok?
      && r.value.title == data.title
      && StatusName(r.value.status) == data.status
      && PriorityName(r.value.priority) == data.priority
      && r.value.dueDate == data.dueDate
      && r.value.owner == userId
  {
    var p := TaskService.BuildPayload(AsTaskInput(body), userId);
    StatusListIsEnumeration(ToDo);
    PriorityListIsEnumeration(Low);
    assert p.status == data.status && p.priority == data.priority;
    assert ParseStatus(p.status).Some? && ParsePriority(p.priority).Some?;
  }

  /** The calls `onSubmit` makes, in order. */
  datatype Request =
    | UpdateRequest(taskId: TaskId, payload: UpdatePayload)
    | CreateRequest(body: CreateBody)
    | AssignRequest(taskId: TaskId, userId: UserId)

  function SelectedIds(data: FormValues): seq<UserId>
  {
    if data.assignedTo.Some? then data.assignedTo.value else []
  }

  /** The assignment loop after a creation: one call per selected id, in
      order; a failing call is recorded and the loop goes on. */
  method AssignAll(taskId: TaskId, ids: seq<UserId>, assignSucceeds: UserId -> bool)
    returns (calls: seq<Request>, failed: seq<UserId>)
    ensures |calls| == |ids|
    ensures forall k :: 0 <= k < |ids| ==> calls[k] == AssignRequest(taskId, ids[k])
    ensures failed == Keep(ids, u => !assignSucceeds(u))
  {
    calls, failed := [], [];
    var i := 0;
    while i < |ids|
      invariant 0 <= i <= |ids|
      invariant |calls| == i
      invariant forall k :: 0 <= k < i ==> calls[k] == AssignRequest(taskId, ids[k])
      invariant failed == Keep(ids[..i], u => !assignSucceeds(u))
    {
      calls := calls + [AssignRequest(taskId, ids[i])];
      KeepSnoc(ids[..i], ids[i], u => !assignSucceeds(u));
      assert ids[..i + 1] == ids[..i] + [ids[i]];
      if !assignSucceeds(ids[i]) {
        failed := failed + [ids[i]];
      }
      i := i + 1;
    }
    assert ids[..i] == ids;
  }

  /** `onSubmit`. The server's answers are parameters: whether the update
      succeeds, the id of the created task (`None` when creation fails) and
      which assignment calls succeed. Returns the calls made, the ids whose
      assignment failed, and whether the form closes. */
  method Submit(
    user: Option<Person>, task: Option<ClientTask>, data: FormValues,
    updateSucceeds: bool, created: Option<TaskId>, assignSucceeds: UserId -> bool)
    returns (requests: seq<Request>, failed: seq<UserId>, closes: bool)
    ensures task.Some? ==>
      && requests == [UpdateRequest(task.value.ident, UpdatePayloadFor(user, task.value, data))]
      && failed == [] && closes == updateSucceeds
    ensures task.None? ==>
      && |requests| >= 1 && requests[0].CreateRequest? && DescribesForm(requests[0].body, data)
    ensures task.None? && created.None? ==> |requests| == 1 && failed == [] && !closes
    ensures task.None? && created.Some? ==>
      && closes
      && |requests| == 1 + |SelectedIds(data)|
      && (forall i :: 0 <= i < |SelectedIds(data)| ==>
            requests[i + 1] == AssignRequest(created.value, SelectedIds(data)[i]))
      && failed == Keep(SelectedIds(data), u => !assignSucceeds(u))
  {
    failed := [];
    if task.Some? {
      requests := [UpdateRequest(task.value.ident, UpdatePayloadFor(user, task.value, data))];
      closes := updateSucceeds;
      return;
    }
    var body := BuildCreateData(data);
    requests := [CreateRequest(body)];
    if created.None? {
      closes := false;
      return;
    }
    var calls;
    calls, failed := AssignAll(created.value, SelectedIds(data), assignSucceeds);
    requests := requests + calls;
    closes := true;
  }

  /** The id of an assignee as the form holds it. */
  function AssigneeIdOf(a: AssigneeRef): UserId
  {
    match a
    case AssigneeIdRef(id) => id
    case AssigneeObject(u) => u.ident
  }

  function AssigneeIds(refs: seq<AssigneeRef>): (ids: seq<UserId>)
    ensures |ids| == |refs|
    ensures forall i :: 0 <= i < |refs| ==> ids[i] == AssigneeIdOf(refs[i])
  {
    if refs == [] then [] else [AssigneeIdOf(refs[0])] + AssigneeIds(refs[1..])
  }

  /** The values the form is reset to: the defaults for a new task, the
      task's own values for an edit. */
  function ResetValues(task: Option<ClientTask>): FormValues
  {
    match task
    case None => FormValues("", Some(""), "To-Do", "Medium", None, Some([]))
    case Some(t) =>
      FormValues(t.title,
        Some(if t.description.Some? then t.description.value else ""),
        StatusName(t.status), PriorityName(t.priority), t.dueDate,
        Some(AssigneeIds(t.assignedTo)))
  }

  /** A new form starts as a To-Do task of Medium priority with no title, due
      date or assignees, and the empty title is the only thing keeping it
      from being submitted. */
  lemma NewFormDefaults(today: int)
    ensures var v := ResetValues(None);
      && v.title == "" && v.status == StatusName(DefaultStatus)
      && v.priority == PriorityName(DefaultPriority)
      && v.dueDate.None? && SelectedIds(v) == []
      && Validate(v, today) == [TitleRequired]
  {
  }

  /** An edit form shows the task's values and one id per assignee, in
      order. */
  lemma EditFormShowsTask(t: ClientTask)
    ensures var v := ResetValues(Some(t));
      && ParseStatus(v.status) == Some(t.status)
      && ParsePriority(v.priority) == Some(t.priority)
      && v.dueDate == t.dueDate
      && |SelectedIds(v)| == |t.assignedTo|
      && forall i :: 0 <= i < |t.assignedTo| ==> SelectedIds(v)[i] == AssigneeIdOf(t.assignedTo[i])
  {
    var v := ResetValues(Some(t));
    StatusNamesRoundTrip(t.status, v.status);
    PriorityNamesRoundTrip(t.priority, v.priority);
  }

  /** As written, the whole form is validated before any edit is sent, so an
      assignee cannot change the status of a task whose due date has passed:
      the unchanged due date fails the past-date rule. */
  lemma OverdueStatusChangeRejected(t: ClientTask, today: int)
    requires t.dueDate.Some? && t.dueDate.value < today
    ensures DueInPast in Validate(ResetValues(Some(t)).(status := "Completed"), today)
  {
  }

  /** The past-date rule applied only to a date that is being set: in create
      mode, or when it differs from the task's stored date. */
  function ValidateEdit(v: FormValues, task: Option<ClientTask>, today: int): (errs: seq<FormError>)
    ensures task.None? ==> errs == Validate(v, today)
    ensures task.Some? && v.dueDate == task.value.dueDate ==>
      (errs == [] <==> 1 <= Utf16Length(v.title) <= MaxTitleLength && v.status in TaskStatuses && v.priority in TaskPriorities)
    ensures forall e :: e in errs && e != DueInPast ==> e in Validate(v, today)
    ensures DueInPast in errs ==> !DueDateAccepted(v.dueDate, today)
  {
    var keepsDate := task.Some? && v.dueDate == task.value.dueDate;
    var checked := if keepsDate then v.(dueDate := None) else v;
    Validate(checked, today)
  }

  /** With the corrected rule, any status change of a task whose title fits
      the schema passes validation, overdue or not. */
  lemma {:induction false} StatusChangeAccepted(t: ClientTask, s: Status, today: int)
    requires 1 <= Utf16Length(t.title) <= MaxTitleLength
    ensures ValidateEdit(ResetValues(Some(t)).(status := StatusName(s)), Some(t), today) == []
  {
    StatusListIsEnumeration(s);
    PriorityListIsEnumeration(t.priority);
  }
}
