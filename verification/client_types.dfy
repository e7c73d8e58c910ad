/** The client's view of users and tasks. A task's creator and assignees
    arrive either as bare ids or as user objects, depending on whether the
    server populated them. */
module ClientTypes {
  import opened Wrappers
  import opened Domain

  /** A user as the client receives it: `_id` (empty when missing), an
      optional alternative `id`, a name and an email. */
  datatype Person = Person(ident: string, altId: Option<string>, name: string, email: string)

  /** `creatorId: User | string`. */
  datatype CreatorRef = CreatorIdRef(id: string) | CreatorObject(user: Person)

  /** An element of `assignedTo: (User | string)[]`. */
  datatype AssigneeRef = AssigneeIdRef(id: string) | AssigneeObject(user: Person)

  /** A task as the client receives it; `dueDate` is a timestamp. */
  datatype ClientTask = ClientTask(
    ident: string,
    title: string,
    description: Option<string>,
    status: Status,
    priority: Priority,
    dueDate: Option<int>,
    creator: CreatorRef,
    assignedTo: seq<AssigneeRef>)

  /** The values the pages' creator checks compare with `===`: `undefined`,
      `null` or an id. */
  datatype JsId = Undefined | Null | Str(s: string)

  /** `user?._id`: `undefined` while nobody is signed in. */
  function SignedInId(user: Option<Person>): (r: JsId)
    ensures r.Undefined? <==> user.None?
    ensures user.Some? ==> r == Str(user.value.ident)
  {
    if user.Some? then Str(user.value.ident) else Undefined
  }
}
