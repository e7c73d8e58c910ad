/** The HTTP face of the task service: each handler turns the service's result
    or thrown error into a status code and a JSON body. */
module TaskController {
  import opened Wrappers
  import opened Domain
  import opened Text
  import TaskStore
  import TaskService

  /** The JSON bodies the handlers send (`{ message }`, a task, `{ tasks }`,
      `{ message, task }`). */
  datatype Body =
    | TaskJson(task: Task)
    | TaskListJson(tasks: seq<Task>)
    | MessageJson(message: string)
    | AssignedJson(message: string, task: Task)

  datatype Response = Response(status: nat, body: Body)

  /** `createTask`: 201 with the stored task, or 400 with the error's message. */
  function CreateTask(outcome: Result<Task>): (resp: Response)
    ensures resp.status == 201 <==> outcome.Ok?
    ensures outcome.Ok? ==> resp.body == TaskJson(outcome.value)
    ensures outcome.Err? ==> resp == Response(400, MessageJson(outcome.message))
  {
    match outcome
    case Ok(task) => Response(201, TaskJson(task))
    case Err(msg) => Response(400, MessageJson(msg))
  }

  const FetchError: string := "Error fetching tasks"

  /** `getTasks`: `{ tasks }` with the default status 200, or 500 with a fixed
      message that does not reveal the error. */
  function GetTasks(outcome: Result<seq<Task>>): (resp: Response)
    ensures resp.status == 200 <==> outcome.Ok?
    ensures outcome.Ok? ==> resp.body == TaskListJson(outcome.value)
    ensures outcome.Err? ==> resp == Response(500, MessageJson(FetchError))
  {
    match outcome
    case Ok(tasks) => Response(200, TaskListJson(tasks))
    case Err(_) => Response(500, MessageJson(FetchError))
  }

  /** What an assignment service would return. The service this controller
      calls is not defined in the task service, so its result is a parameter. */
  datatype AssignResult = AssignResult(alreadyAssigned: bool, message: string, task: Task)

  const AssignIdsRequired: string := "taskId and targetUserId are required"
  const AssignedSuccessfully: string := "Task assigned successfully"

  /** The input check of `assignTask`: a response when an id is missing, in
      which case the service is never consulted. */
  function AssignGuard(taskId: string, targetUserId: Option<string>): (resp: Option<Response>)
    ensures resp.Some? <==> taskId == "" || !TaskService.Truthy(targetUserId)
    ensures resp.Some? ==> resp.value == Response(400, MessageJson(AssignIdsRequired))
  {
    if taskId == "" || !TaskService.Truthy(targetUserId) then
      Some(Response(400, MessageJson(AssignIdsRequired)))
    else None
  }

  /** Status of an error thrown by assignment: 403 when the message speaks of
      authorization, otherwise 400. */
  function AssignErrorStatus(message: string): (status: nat)
    ensures status == 403 <==> Contains(message, "authorized")
    ensures status == 400 <==> !Contains(message, "authorized")
  {
    if Contains(message, "authorized") then 403 else 400
  }

  /** `assignTask`: the guard first, then the outcome of the service. */
  function AssignTask(taskId: string, targetUserId: Option<string>, outcome: Result<AssignResult>)
    : (resp: Response)
    ensures AssignGuard(taskId, targetUserId).Some? ==> resp == AssignGuard(taskId, targetUserId).value
    ensures AssignGuard(taskId, targetUserId).None? ==> match outcome
      case Ok(res) =>
        resp.status == 200 &&
        resp.body == (if res.alreadyAssigned then MessageJson(res.message)
                      else AssignedJson(AssignedSuccessfully, res.task))
      case Err(msg) =>
        resp == Response(AssignErrorStatus(msg), MessageJson(msg))
  {
    match AssignGuard(taskId, targetUserId)
    case Some(early) => early
    case None =>
      match outcome
      case Ok(res) =>
        if res.alreadyAssigned then Response(200, MessageJson(res.message))
        else Response(200, AssignedJson(AssignedSuccessfully, res.task))
      case Err(msg) => Response(AssignErrorStatus(msg), MessageJson(msg))
  }

  /** When an id is missing the response is the same whatever the service
      would have answered: the service plays no part in it. */
  lemma AssignGuardIgnoresService(taskId: string, targetUserId: Option<string>,
                                  o1: Result<AssignResult>, o2: Result<AssignResult>)
    requires taskId == "" || !TaskService.Truthy(targetUserId)
    ensures AssignTask(taskId, targetUserId, o1) == AssignTask(taskId, targetUserId, o2)
    ensures AssignTask(taskId, targetUserId, o1).status == 400
  {
  }

  /** The error JavaScript raises when a handler calls a method its service
      object does not have. */
  const MissingAssignService: string := "taskService.assignTask is not a function"

  /** With the task service as it stands (it has no `assignTask`), every
      request that passes the guard is answered 400 with that error. */
  lemma AssignWithoutServiceIs400(taskId: string, targetUserId: Option<string>)
    requires AssignGuard(taskId, targetUserId).None?
    ensures AssignTask(taskId, targetUserId, Err(MissingAssignService))
         == Response(400, MessageJson(MissingAssignService))
  {
    NotContainsMissingChar(MissingAssignService, "authorized", 7);
  }

  const DeleteIdRequired: string := "taskId is required in the request body"
  const DeletedSuccessfully: string := "Task deleted successfully"

  /** Status of an error thrown by deletion: 403 when the message speaks of
      authorization, otherwise 404. */
  function DeleteErrorStatus(message: string): (status: nat)
    ensures status == 403 <==> Contains(message, "authorized")
    ensures status == 404 <==> !Contains(message, "authorized")
  {
    if Contains(message, "authorized") then 403 else 404
  }

  /** `deleteTask`: 400 without an id, otherwise the outcome of `removeTask`. */
  function DeleteTask(taskId: string, outcome: Result<TaskStore.DeleteResult>): (resp: Response)
    ensures taskId == "" ==> resp == Response(400, MessageJson(DeleteIdRequired))
    ensures taskId != "" && outcome.Ok? ==> resp == Response(200, MessageJson(DeletedSuccessfully))
    ensures taskId != "" && outcome.Err? ==>
      resp == Response(DeleteErrorStatus(outcome.message), MessageJson(outcome.message))
  {
    if taskId == "" then Response(400, MessageJson(DeleteIdRequired))
    else match outcome
      case Ok(_) => Response(200, MessageJson(DeletedSuccessfully))
      case Err(msg) => Response(DeleteErrorStatus(msg), MessageJson(msg))
  }

  /** The only error `removeTask` throws speaks of authorization, so a delete
      of an unknown task is answered 403, never 404. */
  lemma {:induction false} DeleteMissingTaskIs403(taskId: string)
    requires taskId != ""
    ensures DeleteTask(taskId, Err(TaskService.TaskNotFoundOrUnauthorized))
         == Response(403, MessageJson(TaskService.TaskNotFoundOrUnauthorized))
  {
    assert OccursAt(TaskService.TaskNotFoundOrUnauthorized, "authorized", 20);
  }
}
