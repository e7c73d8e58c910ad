# Collaborative Task Manager — a Dafny model

This project models the decision logic of a collaborative task manager. The
system has an Express/Mongoose backend with a socket.io push channel and a
React client.

The model covers:

- **Task documents.** The Mongoose task schema: enumerations, defaults,
  required fields, and validation on create and on `$set` updates.
- **Task repository.** A class holding the task collection as a map from id
  to task. Its methods are `create`, `findTasks`, `findByUserId` (the
  `$or` of creator and assignee, sorted by due date), `findById`,
  `deleteOne`, `$set` and `$addToSet`.
- **Task service and controller.** The create payload and its defaults,
  the delete rule, and the mapping from each handler's outcome to an HTTP
  status and JSON body. This includes the assignment handler, whose service
  method does not exist.
- **Users.** Registration, login, profile lookup and profile update over a
  user collection with unique emails. Sign-up validation follows the zod
  schema's rules and default messages.
- **Push channel.** The handshake gate, the `userSockets` registry kept by
  connect and disconnect, and the targeted and broadcast emits. Each emit is
  appended to an outbox.
- **Client views.** The dashboard's tab, filter and due-date sort. The task
  card and detail page: assignee resolution, initials, avatar colour, the
  overdue test and delete gating. The task form: its schema, role-restricted
  update payload, create body and assignment loop. Also the constant tables.

Dates are integer timestamps. "Now" and "today's midnight" are parameters.
Password hashing, token signing and verification are opaque values or
parameters. So are the answers of the server to the client, and the ids the
database generates.

| file | module | models |
|---|---|---|
| wrappers.dfy | Wrappers | `Option`, `Result` |
| text.dfy | Text | the JavaScript string and array built-ins used (`includes`, `split`, `join`, `toUpperCase`, `find`, `filter`) |
| domain.dfy | Domain | backend/src/models/task.js |
| due_sort.dfy | DueSort | sorting by an optional due date (repository and dashboard) |
| task_store.dfy | TaskStore | backend/src/repositories/task.repository.js |
| task_service.dfy | TaskService | backend/src/services/task.service.js |
| task_controller.dfy | TaskController | backend/src/controllers/task.controller.js |
| realtime.dfy | Realtime | backend/src/server.js, backend/src/utils/socket.util.js |
| user_service.dfy | UserService | backend/src/services/user.service.js |
| user_controller.dfy | UserController | backend/src/controllers/user.controller.js |
| client_types.dfy | ClientTypes | frontend/src/types/index.ts |
| constants.dfy | Constants | frontend/src/lib/constants.ts |
| task_card.dfy | TaskCard | frontend/src/components/TaskCard.tsx |
| task_detail.dfy | TaskDetail | frontend/src/pages/TaskDetail.tsx |
| dashboard.dfy | Dashboard | frontend/src/pages/Dashboard.tsx |
| task_modal.dfy | TaskModal | frontend/src/components/TaskModal.tsx |

### What the code does not do

- **No event dispatch from the task service.** `createNewTask` dispatches
  nothing, although backend/tests/task.service.test.js:17-29 expects it to
  call `broadcastUpdate('TASK_CREATED', savedTask)`. The emit primitives
  are modelled on their own (`Realtime.SocketServer`).
- **No creator-only rule on delete.** The client offers delete only to the
  creator (frontend/src/components/TaskCard.tsx:25 and :269,
  frontend/src/pages/TaskDetail.tsx:84 and :140). On the server,
  `removeTask` passes the caller's id to a repository `delete` that ignores
  it. This is recorded under Findings.
- **No assignment or update service.** The service defines no
  `assignTask` or `updateTask`, although
  backend/tests/task.service.test.js:33-47 expects `assignTask`. The
  assignment handler's service result is a parameter.
  `TaskController.AssignWithoutServiceIs400` states what the code as it
  stands answers.

## Model

| member | source | states |
|---|---|---|
| Domain.ParseStatus | backend/src/models/task.js:8-12 | the status enum accepts exactly the three spellings "To-Do", "In-Progress", "Completed" and maps each to its status |
| Domain.ParsePriority | backend/src/models/task.js:14-18 | the priority enum accepts exactly "Low", "Medium", "High" |
| Domain.StatusNamesRoundTrip | backend/src/models/task.js:8-12 | parsing a status's name gives the status back, and only its own name parses to it |
| Domain.PriorityNamesRoundTrip | backend/src/models/task.js:14-18 | the same round trip for priorities |
| Domain.Materialize | backend/src/models/task.js:3-26 | a new document is accepted iff title and owner are present and both enums hold; the stored task carries exactly the payload's fields, the given id and no assignees; a rejection carries the validation message |
| DueSort.SortCorrect | backend/src/repositories/task.repository.js:12-13 | sorting by due date returns a permutation of its input (same multiset, same length) in which every pair is in order |
| DueSort.SortDistinct | backend/src/repositories/task.repository.js:12-13 | sorting never makes two results share an id |
| TaskStore.StoreSortedIsDatedInOrder | backend/src/repositories/task.repository.js:12-13 | a result sorted with `{ dueDate: ±1 }` has its dated tasks in ascending or descending due order |
| TaskStore.ApplyUpdate | backend/src/repositories/task.repository.js:36-41 | `$set` replaces each mentioned field, the creator (`userID`) included, and keeps every other; the id never changes; enum fields take the named value |
| TaskStore.AddToSet | backend/src/repositories/task.repository.js:48 | `$addToSet` leaves the member present, adds nothing else, is a no-op when it is already there, and never creates a duplicate |
| TaskStore.AddToSetIdempotent | backend/src/repositories/task.repository.js:48 | adding the same assignee twice equals adding it once |
| TaskStore.Deleted | backend/src/repositories/task.repository.js:31-33 | `deleteOne({ _id })` removes exactly the task with that id and leaves every other task as it was |
| TaskStore.NonCreatorDeletes | backend/src/repositories/task.repository.js:31-33 | as written, a caller who did not create a task removes it |
| TaskStore.DeletedOwned | backend/src/services/task.service.js:22-26 | a delete filtered by creator removes the task only when the caller created it |
| TaskStore.OnlyCreatorDeletes | backend/src/services/task.service.js:22-26 | with the creator filter, tasks of other creators survive unchanged and the caller's own task goes |
| TaskStore.TaskTable.Create | backend/src/repositories/task.repository.js:4-6 | insert stores the validated document under the fresh id, or changes nothing when validation fails; ids stay consistent |
| TaskStore.TaskTable.FindById | backend/src/repositories/task.repository.js:27-29 | finds the task with that id iff one is stored |
| TaskStore.TaskTable.Select | backend/src/repositories/task.repository.js:13 | a query returns every stored task that matches and nothing else, each once |
| TaskStore.TaskTable.SortResult | backend/src/repositories/task.repository.js:13 | sorting a query result keeps its members and distinct ids and orders the dated ones |
| TaskStore.TaskTable.FindTasks | backend/src/repositories/task.repository.js:12-14 | exactly the matching tasks, each once, dated ones in the requested due order |
| TaskStore.TaskTable.FindByUserId | backend/src/repositories/task.repository.js:17-23 | exactly the tasks the user created or is assigned to that match the filters, each once, dated ones in due order |
| TaskStore.TaskTable.Delete | backend/src/repositories/task.repository.js:31-33 | reports 1 when the id was stored and 0 otherwise, and removes that id only |
| TaskStore.TaskTable.DeleteOwned | backend/src/services/task.service.js:22-26 | reports 1 only for the caller's own task, and removes it only then |
| TaskStore.TaskTable.Update | backend/src/repositories/task.repository.js:36-42 | a rejected `$set` fails with the validation message and changes nothing; an unknown id yields no document; otherwise the updated document is stored and returned |
| TaskStore.TaskTable.AddAssignee | backend/src/repositories/task.repository.js:45-51 | an unknown id yields nothing and changes nothing; otherwise the assignee list gains the user by set semantics and nothing else changes |
| TaskService.BuildPayload | backend/src/services/task.service.js:6-13 | the legacy `todo` wins over `title`; missing description, status and priority take "", To-Do and Medium; the owner is the caller; the due date passes through |
| TaskService.CreateDefaults | backend/src/services/task.service.js:6-15 | a create without status or priority stores a To-Do, Medium task of the caller with no assignees, and fails only without a title or caller |
| TaskService.CheckDeleted | backend/src/services/task.service.js:24-27 | a zero delete count is the "Task not found or unauthorized" error; any other count is returned |
| TaskService.CreateNewTask | backend/src/services/task.service.js:4-16 | the result and the new table are those of inserting the built payload |
| TaskService.GetAllTasks | backend/src/services/task.service.js:18-20 | the caller's created and assigned tasks, each once, dated ones in ascending due order |
| TaskService.RemoveTask | backend/src/services/task.service.js:22-28 | as written, the outcome and the table depend only on the task id: the task is removed whoever asks, and a missing one is the not-found error |
| TaskService.RemoveOwnTask | backend/src/services/task.service.js:22-28 | corrected: a missing task and another creator's task fail alike and change nothing; the caller's own task is removed |
| TaskController.CreateTask | backend/src/controllers/task.controller.js:4-11 | 201 with the task iff creation succeeded, else 400 with the error message |
| TaskController.GetTasks | backend/src/controllers/task.controller.js:13-20 | 200 with `{ tasks }` iff the fetch succeeded, else 500 with a fixed message |
| TaskController.AssignGuard | backend/src/controllers/task.controller.js:30-32 | a missing or empty task id or target is answered 400 with the required-ids message |
| TaskController.AssignErrorStatus | backend/src/controllers/task.controller.js:49 | an assignment error is 403 iff its message contains "authorized", else 400 |
| TaskController.AssignTask | backend/src/controllers/task.controller.js:22-52 | guard first; then 200 with the service's message when already assigned, 200 with the success message and task otherwise, or the error's status and message |
| TaskController.AssignGuardIgnoresService | backend/src/controllers/task.controller.js:30-32 | with an id missing the answer is 400 whatever the service would have returned |
| TaskController.AssignWithoutServiceIs400 | backend/src/controllers/task.controller.js:35 | with no `assignTask` in the service, every request past the guard is answered 400 with the "is not a function" error |
| TaskController.DeleteErrorStatus | backend/src/controllers/task.controller.js:67 | a delete error is 403 iff its message contains "authorized", else 404 |
| TaskController.DeleteTask | backend/src/controllers/task.controller.js:54-70 | 400 without an id, 200 with the success message after a removal, otherwise the error's status and message |
| TaskController.DeleteMissingTaskIs403 | backend/src/controllers/task.controller.js:67 | the service's only error mentions "authorized", so deleting an unknown task is answered 403, not 404 |
| Realtime.Authenticate | backend/src/server.js:19-35 | a handshake is admitted iff a token is present and verifies, as the id inside it; the two failures carry their two messages |
| Realtime.DropOnDisconnect | backend/src/server.js:46-47 | as written, a disconnect removes the user's entry whatever socket it names and keeps all other entries |
| Realtime.DropOwnOnDisconnect | backend/src/server.js:46-47 | corrected: a disconnect removes the user's entry only while it names the closing socket |
| Realtime.StaleDisconnectDropsNewerSocket | backend/src/server.js:42-47 | a user whose entry names a newer socket loses the entry when the older socket closes |
| Realtime.OwnDisconnectKeepsNewerSocket | backend/src/server.js:42-47 | with the corrected handler every entry naming another socket survives unchanged |
| Realtime.Recipients | backend/src/utils/socket.util.js:4-7 | a targeted emit reaches the user's registered socket, or no socket |
| Realtime.SocketServer.Connect | backend/src/server.js:19-43 | a refused handshake changes nothing; an admitted one registers the socket as the user's, replacing an earlier one, and the registry stays consistent with the live sockets |
| Realtime.SocketServer.Disconnect | backend/src/server.js:46-49 | as written: the socket goes and the registry loses its user's entry |
| Realtime.SocketServer.DisconnectOwn | backend/src/server.js:46-49 | corrected: the socket goes and the registry loses only an entry naming it |
| Realtime.SocketServer.NotifyUser | backend/src/utils/socket.util.js:3-8 | one emit to the user's registered socket, which is live and the user's own, or nothing when the user has none |
| Realtime.SocketServer.BroadcastUpdate | backend/src/utils/socket.util.js:10-12 | one emit reaching every live socket |
| UserService.Public | backend/src/services/user.service.js:39 | the returned user carries id, name and email and no password |
| UserService.InsertKeepsEmailsUnique | backend/src/services/user.service.js:10-21 | storing a user whose email nobody holds keeps emails unique |
| UserService.ReplaceKeepsEmailsUnique | backend/src/services/user.service.js:61-69 | replacing a user, keeping their email or taking an unused one, keeps emails unique |
| UserService.ApplyProfile | backend/src/services/user.service.js:69 | an update replaces the given name and email and keeps id and password |
| UserService.UserDirectory.FindByEmail | backend/src/repositories/user.repository.js:4-6 | finds a stored user with that email iff one exists |
| UserService.UserDirectory.RegisterUser | backend/src/services/user.service.js:9-22 | a taken email fails "User already exists" and changes nothing; otherwise the user is stored with the hashed password, emails stay unique |
| UserService.UserDirectory.LoginUser | backend/src/services/user.service.js:26-40 | unknown email and wrong password fail alike with "Invalid Credentials"; success iff a user has that email and password, giving a token for that user and the user without password |
| UserService.UserDirectory.GetUserProfile | backend/src/services/user.service.js:47-53 | "User not found" iff the id is unknown, else the user without password |
| UserService.UserDirectory.UpdateUserProfile | backend/src/services/user.service.js:55-71 | unknown user, a changed email that someone holds, or an incomplete result fail and change nothing; otherwise the updated user is stored and emails stay unique |
| UserController.SignupIssuesSpec | backend/src/controllers/user.controller.js:5-9 | the sign-up schema reports nothing iff the name has 2–30 UTF-16 code units, the email is well formed and the password has at least 6 code units; the first issue belongs to the first failing field |
| UserController.AstralNameLongEnough | backend/src/controllers/user.controller.js:6 | a name of a single emoji is two code units long and passes the name rule |
| UserController.SignupGuard | backend/src/controllers/user.controller.js:15-18 | an invalid body is answered 400 with the first issue's message, and only then |
| UserController.Signup | backend/src/controllers/user.controller.js:12-32 | 400 with the first issue, else 201 after a registration, else 400 with the service's message |
| UserController.SignupGuardIgnoresService | backend/src/controllers/user.controller.js:15-18 | an invalid body gets the same 400 whatever the service would do |
| UserController.Signin | backend/src/controllers/user.controller.js:34-42 | 200 with the login result iff login succeeded, else 401 with the message |
| Constants.StatusListIsEnumeration | frontend/src/lib/constants.ts:1 | the status list is the schema's enumeration in order, without repeats, and holds exactly the names that parse |
| Constants.PriorityListIsEnumeration | frontend/src/lib/constants.ts:2 | the same for the priority list |
| Constants.StatusColor | frontend/src/lib/constants.ts:4-8 | every status has a non-empty badge class |
| Constants.PriorityColor | frontend/src/lib/constants.ts:10-14 | every priority has a non-empty badge class |
| Constants.ColorsDistinguish | frontend/src/lib/constants.ts:4-14 | distinct statuses, and distinct priorities, get distinct classes |
| Constants.SocketEventsNameThemselves | frontend/src/lib/constants.ts:16-22 | five events, each named by its own key |
| TaskCard.CreatorIdOf | frontend/src/components/TaskCard.tsx:24 | the creator id is the id itself or the creator object's `_id` |
| TaskCard.DeleteOfferedMatchesServer | frontend/src/components/TaskCard.tsx:24-25 | when the card's creator id is the stored owner, a signed-in user is offered delete iff the creator-filtered delete removes the task for them; anyone else would leave the table unchanged |
| TaskCard.OverdueIsStable | frontend/src/components/TaskCard.tsx:28 | overdue iff dated, past and not completed; an overdue task stays overdue as time passes |
| TaskCard.IdOr | frontend/src/components/TaskCard.tsx:60 | `_id`, else `id`, else the fallback |
| TaskCard.Resolve | frontend/src/components/TaskCard.tsx:56-78 | an object assignee is used as given; an id resolves to the first user answering to it by `_id` or `id`, or to an "Unknown User" with no email |
| TaskCard.ResolveAll | frontend/src/components/TaskCard.tsx:53-79 | one resolved entry per assignee, in the same order, none for none |
| TaskCard.UnknownUserFallback | frontend/src/components/TaskCard.tsx:67-77 | an id nobody answers to shows as the unknown user; an entry with another name comes from a known user |
| TaskCard.FirstLettersAreWordStarts | frontend/src/components/TaskCard.tsx:83-86 | the first letters of the space-split words are exactly the characters that begin a word, empty words contributing nothing |
| TaskCard.GetInitials | frontend/src/components/TaskCard.tsx:82-89 | at most two characters: the upper-cased first two word-initial characters |
| TaskCard.AvatarIndex | frontend/src/components/TaskCard.tsx:103 | a non-empty name's index is its first UTF-16 code unit mod 8 (the high surrogate for an astral first character), a valid palette index; an empty name has none |
| TaskCard.AstralNameColor | frontend/src/components/TaskCard.tsx:103 | a name opening with 😀 is coloured by its high surrogate 0xD83D: "bg-yellow-500" |
| TaskCard.AvatarColor | frontend/src/components/TaskCard.tsx:92-105 | every non-empty name gets a palette colour |
| TaskCard.AvatarColorByFirstChar | frontend/src/components/TaskCard.tsx:103 | names with the same first character get the same colour |
| TaskCard.AvatarStrip | frontend/src/components/TaskCard.tsx:107-111 | shows the first min(n, 3) assignees, a badge n − 3 exactly when n > 3, and the list button iff n > 0 |
| TaskDetail.DetailDeleteAgreesWithCard | frontend/src/pages/TaskDetail.tsx:83-84 | the page's `null` creator id matches nobody, so no delete without a task; with a task the page offers delete exactly where the card does |
| TaskDetail.DetailOverdueAgreesWithCard | frontend/src/pages/TaskDetail.tsx:85 | the page's own overdue expression is false without a task and agrees with the card's on a loaded one |
| TaskDetail.DetailAssignees | frontend/src/pages/TaskDetail.tsx:34-57 | no assignees without a task; otherwise one resolved entry per assignee, in order |
| TaskDetail.CreatorName | frontend/src/pages/TaskDetail.tsx:286-289 | the name is never empty; an id nobody holds shows "Unknown"; otherwise the first user holding the id by `_id` supplies the name, "Unknown" when empty; any other name shown belongs to a user with that id, or is the creator object's own |
| Dashboard.CurrentTasks | frontend/src/pages/Dashboard.tsx:41-52 | the list of the active tab, or empty when it has not arrived |
| Dashboard.CurrentTasksIgnoresOtherTabs | frontend/src/pages/Dashboard.tsx:41-52 | the current list depends on the active tab's list alone |
| Dashboard.OverdueCount | frontend/src/pages/Dashboard.tsx:129 | the overdue list's length, 0 when absent |
| Dashboard.WantedMembers | frontend/src/pages/Dashboard.tsx:59-67 | the reference filter keeps exactly the tasks passing both filters and never grows the list |
| Dashboard.FilteredIsConjunction | frontend/src/pages/Dashboard.tsx:57-67 | the status filter then the priority filter ("all" skipped) equals one filter by their conjunction, keeping the original order |
| Dashboard.FilteredAndSortedPermutes | frontend/src/pages/Dashboard.tsx:55-93 | the shown list is a permutation of exactly the passing tasks, never longer than the tab's list; unsorted it is the filter's result unchanged |
| Dashboard.FilteredAndSortedOrdered | frontend/src/pages/Dashboard.tsx:70-89 | sorted, dated tasks are in non-decreasing ("earliest") or non-increasing ("latest") due order, and every undated task comes after every dated one |
| TaskModal.Message | frontend/src/components/TaskModal.tsx:13-23 | every issue has a non-empty message |
| TaskModal.Validate | frontend/src/components/TaskModal.tsx:12-25 | no issue iff the title has 1–100 UTF-16 code units, both enums hold and the due date is empty or not before today; each issue is reported iff its rule fails |
| TaskModal.TitleRule | frontend/src/components/TaskModal.tsx:13 | the title passes iff it has 1 to 100 UTF-16 code units; without astral characters that is 1 to 100 characters, and each astral character counts twice |
| TaskModal.AstralTitleTooLong | frontend/src/components/TaskModal.tsx:13 | a title of 51 emoji is 102 code units and is refused as too long |
| TaskModal.EditRightsAreDeleteRights | frontend/src/components/TaskModal.tsx:42-47 | all fields are editable in create mode; in edit mode exactly the user the card and the detail page offer delete to may edit every field |
| TaskModal.UpdatePayloadFor | frontend/src/components/TaskModal.tsx:94 | a non-creator sends only the status, a creator the whole form |
| TaskModal.BuildCreateData | frontend/src/components/TaskModal.tsx:98-108 | the create body carries the form's fields, an empty description when none, and a due date only when one was entered |
| TaskModal.ValidFormIsStorable | frontend/src/components/TaskModal.tsx:98-110 | a form the client schema accepts produces a create call the server schema accepts, storing the form's title, status, priority and due date for the caller |
| TaskModal.AssignAll | frontend/src/components/TaskModal.tsx:113-124 | one assign call per selected id, in order; failures are collected and do not stop the loop |
| TaskModal.Submit | frontend/src/components/TaskModal.tsx:90-131 | an edit sends one update and closes iff it succeeds; a create sends the body, then (if it succeeded) the assign calls, and closes; a failed create makes no assign call and does not close |
| TaskModal.AssigneeIds | frontend/src/components/TaskModal.tsx:76 | one id per assignee, in order |
| TaskModal.NewFormDefaults | frontend/src/components/TaskModal.tsx:57-64 | a new form is an untitled To-Do, Medium task with no due date or assignees, held back only by its empty title |
| TaskModal.EditFormShowsTask | frontend/src/components/TaskModal.tsx:69-77 | an edit form shows the task's status, priority, due date and its assignee ids in order |
| TaskModal.OverdueStatusChangeRejected | frontend/src/components/TaskModal.tsx:17-23 | as written, changing only the status of a task whose due date has passed is refused by the past-date rule |
| TaskModal.ValidateEdit | frontend/src/components/TaskModal.tsx:17-23 | corrected: the past-date rule applies only to a due date being set; with the date unchanged, validity is the other rules alone |
| TaskModal.StatusChangeAccepted | frontend/src/components/TaskModal.tsx:94 | corrected: any status change of a task with a valid title passes, overdue or not |

## Left out

- Password hashing (bcrypt) and token signing and verification (JWT) are opaque. A credential is a value of its own type. Verification is a parameter.
- Database behaviour is abstracted:
  - generated ids are parameters;
  - Mongoose cast errors, timestamps and `populate` are not modelled;
  - the library's own validation messages are replaced by one fixed message per schema.
- TaskStore.TaskTable.FindTasks: promises an order only among dated tasks, because where the database's sort puts tasks without a due date is its own choice.
- TaskStore.TaskTable.FindByUserId: promises an order only among dated tasks, for the same reason.
- TaskService.GetAllTasks: promises an order only among dated tasks, for the same reason as FindByUserId.
- The task schema names the creator `userID` and holds a single `assignedTo` reference. The repository queries `creatorId` and maintains `assignedTo` as a set. The model has one `owner` field and a sequence of assignees.
- The service has no `assignTask` or `updateTask`. The assignment handler takes the service's outcome as a parameter, and no update handler is modelled.
- The controller's `deleteTask` handler is modelled; the route wiring and the authentication middleware that sets `req.userid` are not part of this model.
- `getAllUsers` (user service) is not part of this model: it only lists users.
- UserService.ApplyProfile: applies only name and email and keeps id and password, because the model's profile update carries only those two fields. The source writes every field of the request body, the password included.
- UserService.UserDirectory.UpdateUserProfile: only name and email are modelled. The source hands the whole request body to the update, so other fields are written as given.
- TaskStore.ApplyUpdate: any path of the schema may appear in a `$set`. The model's update document holds the six form fields and the creator; timestamps and unknown paths are not modelled.
- TaskModal.Submit: assumes that inputs disabled for a non-creator keep their reset values in the data the resolver validates and `onSubmit` receives. If the form library drops them as `undefined` instead, every non-creator edit fails the title's "Required" check. Which happens depends on the react-hook-form version, which is not part of this model.
- UserController.SignupIssuesSpec: the email rule is a structural reading of zod 3's address pattern: character classes, no doubled dot, dotted labels, a top-level domain of two or more letters. The messages are zod 3's defaults.
- TaskModal.Message: the enum message follows zod 3's default wording.
- TaskCard.GetInitials: upper-cases ASCII letters only, because the model has no Unicode case mapping. It takes each word's first character where the source takes its first UTF-16 code unit, and keeps two characters where the source keeps two code units; a lone surrogate is not a character here. The two agree for names without astral characters (outside the Basic Multilingual Plane).
- Characters are Unicode scalar values. Where the source measures or indexes strings by UTF-16 code units (the title and sign-up length rules, the avatar colour), the model counts those units explicitly.
- Date parsing, time zones and invalid dates are not modelled. So are the form's `yyyy-MM-dd` formatting and `isPast`. Due dates are timestamps compared directly.
- Rendering, navigation, the popover, confirmation dialogs, loading states, mobile menus, query caching and logging are not modelled.
- Concurrency is not modelled. Each operation runs alone, and the store's single-document updates are atomic.
- Emits are recorded in an outbox. Delivery, rooms and reconnection are not modelled.

## Findings

| source | as written | input that shows it | evidently intended | confidence | as-written member | corrected member |
|---|---|---|---|---|---|---|
| backend/src/server.js:47 | the disconnect handler deletes `userSockets[userId]` whatever socket it names | a user connects on socket s1, then on s2; s1 closes and the entry naming s2 is deleted, so the user gets no targeted events although s2 is live | delete the entry only while it names the closing socket | medium, not executed | Realtime.StaleDisconnectDropsNewerSocket | Realtime.OwnDisconnectKeepsNewerSocket |
| backend/src/services/task.service.js:23 | `removeTask` passes the caller's id to `delete`, which filters on `_id` only | a task created by alice is deleted by mallory; the call succeeds and the task is gone | delete only a task the caller created, answering "Task not found or unauthorized" otherwise | high, not executed | TaskStore.NonCreatorDeletes | TaskStore.OnlyCreatorDeletes |
| frontend/src/components/TaskModal.tsx:17-23 | the past-date rule validates the due date of every submission, including edits that leave it unchanged | an assignee opens a task due yesterday, sets status Completed and submits; validation fails with "Due date cannot be in the past" and no update is sent | apply the rule only to a due date being set | low, not executed; assumes disabled fields keep their reset values (see TaskModal.Submit under Left out) | TaskModal.OverdueStatusChangeRejected | TaskModal.StatusChangeAccepted |
