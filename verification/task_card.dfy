/** The logic of a task card: who created the task, whether it is overdue,
    how its assignees are resolved and drawn (initials, avatar colour, how
    many are shown), and whether the delete action is offered. */
module TaskCard {
  import opened Wrappers
  import opened Domain
  import opened Text
  import opened ClientTypes
  import TaskStore

  /** The creator's id, whether the creator arrives as an id or a user. */
  function CreatorIdOf(task: ClientTask): (id: string)
    ensures task.creator.CreatorIdRef? ==> id == task.creator.id
    ensures task.creator.CreatorObject? ==> id == task.creator.user.ident
  {
    match task.creator
    case CreatorIdRef(id) => id
    case CreatorObject(u) => u.ident
  }

  /** `user?._id === creatorId`: false when nobody is signed in, since an
      absent user's `undefined` never equals the creator's id. */
  predicate IsCreator(user: Option<Person>, task: ClientTask)
  {
    SignedInId(user) == Str(CreatorIdOf(task))
  }

  /** The delete action is offered exactly to the creator. */
  predicate ShowsDelete(user: Option<Person>, task: ClientTask)
  {
    IsCreator(user, task)
  }

  /** When the card's creator id is the stored owner, the card offers delete
      to a signed-in user exactly when the creator-filtered delete would
      remove the task for them; anybody else would find the table unchanged. */
  lemma DeleteOfferedMatchesServer(user: Person, task: ClientTask, tasks: map<TaskId, Task>)
    requires task.ident in tasks && tasks[task.ident].owner == CreatorIdOf(task)
    ensures ShowsDelete(Some(user), task) <==> task.ident !in TaskStore.DeletedOwned(tasks, task.ident, user.ident)
    ensures !ShowsDelete(Some(user), task) ==> TaskStore.DeletedOwned(tasks, task.ident, user.ident) == tasks
    ensures ShowsDelete(Some(user), task) ==>
      TaskStore.DeletedOwned(tasks, task.ident, user.ident) == TaskStore.Deleted(tasks, task.ident)
  {
  }

  /** Due, past `now`, and not completed. */
  predicate IsOverdue(task: ClientTask, now: int)
  {
    task.dueDate.Some? && task.dueDate.value < now && task.status != Completed
  }

  /** Once overdue, a task stays overdue as time passes until it is
      completed; undated and completed tasks never are. */
  lemma OverdueIsStable(task: ClientTask, now: int, later: int)
    requires now <= later
    ensures IsOverdue(task, now) ==> IsOverdue(task, later)
    ensures task.dueDate.None? || task.status == Completed ==> !IsOverdue(task, now)
    ensures task.dueDate.Some? && task.status != Completed ==>
      (IsOverdue(task, now) <==> task.dueDate.value < now)
  {
  }

  /** The resolved form of an assignee. */
  datatype AssigneeView = AssigneeView(ident: string, name: string, email: string)

  const UnknownUser: string := "Unknown User"

  /** `u._id === id || u.id === id`. */
  predicate Answers(u: Person, id: string)
  {
    u.ident == id || (u.altId.Some? && u.altId.value == id)
  }

  /** `a._id || a.id || fallback`. */
  function IdOr(u: Person, fallback: string): (id: string)
    ensures u.ident != "" ==> id == u.ident
    ensures u.ident == "" && u.altId.Some? && u.altId.value != "" ==> id == u.altId.value
    ensures u.ident == "" && (u.altId.None? || u.altId.value == "") ==> id == fallback
  {
    if u.ident != "" then u.ident
    else if u.altId.Some? && u.altId.value != "" then u.altId.value
    else fallback
  }

  /** One assignee: a user object is used as it is; an id is looked up in the
      user list, with a placeholder when nobody answers to it. */
  function Resolve(a: AssigneeRef, users: seq<Person>): (v: AssigneeView)
    ensures a.AssigneeObject? ==>
      v == AssigneeView(IdOr(a.user, ""), a.user.name, a.user.email)
    ensures a.AssigneeIdRef? ==> match FindIndex(users, (u: Person) => Answers(u, a.id))
      case None => v == AssigneeView(a.id, UnknownUser, "")
      case Some(k) =>
        && (forall j :: 0 <= j < k ==> !Answers(users[j], a.id))
        && Answers(users[k], a.id)
        && v == AssigneeView(IdOr(users[k], a.id), users[k].name, users[k].email)
  {
    match a
    case AssigneeObject(u) => AssigneeView(IdOr(u, ""), u.name, u.email)
    case AssigneeIdRef(id) =>
      match FindIndex(users, (u: Person) => Answers(u, id))
      case None => AssigneeView(id, UnknownUser, "")
      case Some(k) => AssigneeView(IdOr(users[k], id), users[k].name, users[k].email)
  }

  /** `getAssignees`: one resolved entry per element of `assignedTo`, in the
      same order. */
  function ResolveAll(refs: seq<AssigneeRef>, users: seq<Person>): (r: seq<AssigneeView>)
    ensures |r| == |refs|
    ensures forall i :: 0 <= i < |refs| ==> r[i] == Resolve(refs[i], users)
  {
    if refs == [] then [] else [Resolve(refs[0], users)] + ResolveAll(refs[1..], users)
  }

  function GetAssignees(task: ClientTask, users: seq<Person>): seq<AssigneeView>
  {
    ResolveAll(task.assignedTo, users)
  }

  /** An id that nobody in the list answers to shows as an unknown user with
      no email; a known id never does unless that user is so named. */
  lemma UnknownUserFallback(task: ClientTask, users: seq<Person>, i: int)
    requires 0 <= i < |task.assignedTo| && task.assignedTo[i].AssigneeIdRef?
    ensures var id := task.assignedTo[i].id;
      (forall u :: u in users ==> !Answers(u, id)) ==>
        GetAssignees(task, users)[i] == AssigneeView(id, UnknownUser, "")
    ensures var id := task.assignedTo[i].id;
      GetAssignees(task, users)[i].name != UnknownUser ==> exists u :: u in users && Answers(u, id)
  {
    var id := task.assignedTo[i].id;
    match FindIndex(users, (u: Person) => Answers(u, id))
    case None =>
    case Some(k) => assert users[k] in users;
  }

  /** The characters that begin a word of `s` (a non-space character at the
      start or after a space); `atStart` says whether the text before `s`
      ended a word. */
  function WordStarts(s: string, atStart: bool): string
  {
    if s == [] then []
    else if s[0] == ' ' then WordStarts(s[1..], true)
    else (if atStart then [s[0]] else []) + WordStarts(s[1..], false)
  }

  /** `words.map(n => n[0]).join('')`: an empty word contributes nothing. */
  function FirstLetters(words: seq<string>): string
  {
    if words == [] then []
    else (if words[0] == [] then [] else [words[0][0]]) + FirstLetters(words[1..])
  }

  /** Splitting on spaces and taking first letters picks exactly the
      characters that begin a word. */
  lemma {:induction false} FirstLettersAreWordStarts(s: string)
    ensures FirstLetters(SplitOn(s, ' ')) == WordStarts(s, true)
    ensures FirstLetters(SplitOn(s, ' ')[1..]) == WordStarts(s, false)
  {
    if s != [] {
      var rest := SplitOn(s[1..], ' ');
      FirstLettersAreWordStarts(s[1..]);
      if s[0] == ' ' {
        assert SplitOn(s, ' ') == [[]] + rest;
        assert SplitOn(s, ' ')[1..] == rest;
      } else {
        var parts := SplitOn(s, ' ');
        assert parts == [[s[0]] + rest[0]] + rest[1..];
        assert parts[1..] == rest[1..];
        assert FirstLetters(parts) == [s[0]] + FirstLetters(rest[1..]);
      }
    }
  }

  /** `getInitials`: the upper-cased first letters of the space-separated
      words, at most two. */
  function GetInitials(name: string): (r: string)
    ensures |r| <= 2
    ensures |r| == if |WordStarts(name, true)| < 2 then |WordStarts(name, true)| else 2
    ensures forall i :: 0 <= i < |r| ==> r[i] == UpperChar(WordStarts(name, true)[i])
  {
    FirstLettersAreWordStarts(name);
    Prefix(Upper(FirstLetters(SplitOn(name, ' '))), 2)
  }

  const AvatarPalette: seq<string> := [
    "bg-blue-500", "bg-green-500", "bg-purple-500", "bg-pink-500",
    "bg-indigo-500", "bg-yellow-500", "bg-red-500", "bg-teal-500"]

  /** `name.charCodeAt(0) % colors.length`; an empty name has no code (the
      lookup yields nothing). The code is that of the first UTF-16 unit. */
  function AvatarIndex(name: string): (r: Option<nat>)
    ensures r.Some? <==> name != ""
    ensures r.Some? ==> r.value < |AvatarPalette|
    ensures r.Some? && !Astral(name[0]) ==> r.value == name[0] as int % |AvatarPalette|
    ensures r.Some? && Astral(name[0]) ==>
      0xD800 <= FirstCodeUnit(name[0]) <= 0xDBFF && r.value == FirstCodeUnit(name[0]) % |AvatarPalette|
  {
    if name == "" then None else Some(FirstCodeUnit(name[0]) % |AvatarPalette|)
  }

  /** `getAvatarColor`: a palette entry for every non-empty name. */
  function AvatarColor(name: string): (r: Option<string>)
    ensures r.Some? <==> name != ""
    ensures r.Some? ==> r.value in AvatarPalette
  {
    match AvatarIndex(name)
    case None => None
    case Some(i) => Some(AvatarPalette[i])
  }

  /** A name opening with an emoji is coloured by the emoji's high
      surrogate, 0xD83D, which falls on the sixth palette entry. */
  lemma AstralNameColor()
    ensures AvatarColor("\U{1F600}x") == Some("bg-yellow-500")
  {
    assert "\U{1F600}x"[0] == '\U{1F600}';
    assert FirstCodeUnit('\U{1F600}') == 0xD83D;
  }

  /** The colour depends on the first character alone. */
  lemma AvatarColorByFirstChar(a: string, b: string)
    requires a != "" && b != "" && a[0] == b[0]
    ensures AvatarColor(a) == AvatarColor(b)
  {
  }

  /** What the card draws for `n` assignees: the avatars shown, the `+k`
      badge, and whether the list button is present. */
  datatype Strip = Strip(shown: seq<AssigneeView>, badge: Option<nat>, showMore: bool)

  function AvatarStrip(assignees: seq<AssigneeView>): (s: Strip)
    ensures |s.shown| == if |assignees| < 3 then |assignees| else 3
    ensures s.shown <= assignees
    ensures s.badge.Some? <==> |assignees| > 3
    ensures s.badge.Some? ==> |s.shown| + s.badge.value == |assignees|
    ensures s.showMore <==> |assignees| > 0
  {
    var showCountBadge := |assignees| > 3;
    Strip(
      if showCountBadge then assignees[..3] else assignees,
      if showCountBadge then Some(|assignees| - 3) else None,
      |assignees| > 0)
  }
}
