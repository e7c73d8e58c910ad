/** The client's constant tables: the status and priority lists, their badge
    colours and the names of the push events. */
module Constants {
  import opened Domain

  const TaskStatuses: seq<string> := ["To-Do", "In-Progress", "Completed"]
  const TaskPriorities: seq<string> := ["Low", "Medium", "High"]

  /** The status list is the schema's enumeration, in order, each name once. */
  lemma StatusListIsEnumeration(s: Status)
    ensures TaskStatuses == [StatusName(ToDo), StatusName(InProgress), StatusName(Completed)]
    ensures StatusName(s) in TaskStatuses
    ensures forall i, j :: 0 <= i < j < |TaskStatuses| ==> TaskStatuses[i] != TaskStatuses[j]
    ensures forall name :: name in TaskStatuses <==> ParseStatus(name).Some?
  {
  }

  /** The priority list is the schema's enumeration, in order, each name once. */
  lemma PriorityListIsEnumeration(p: Priority)
    ensures TaskPriorities == [PriorityName(Low), PriorityName(Medium), PriorityName(High)]
    ensures PriorityName(p) in TaskPriorities
    ensures forall i, j :: 0 <= i < j < |TaskPriorities| ==> TaskPriorities[i] != TaskPriorities[j]
    ensures forall name :: name in TaskPriorities <==> ParsePriority(name).Some?
  {
  }

  /** `STATUS_COLORS`: a class string for every status. */
  function StatusColor(s: Status): (classes: string)
    ensures classes != ""
  {
    match s
    case ToDo => "bg-gray-100 text-gray-800 border-gray-300"
    case InProgress => "bg-yellow-100 text-yellow-800 border-yellow-300"
    case Completed => "bg-green-100 text-green-800 border-green-300"
  }

  /** `PRIORITY_COLORS`: a class string for every priority. */
  function PriorityColor(p: Priority): (classes: string)
    ensures classes != ""
  {
    match p
    case Low => "bg-blue-100 text-blue-800 border-blue-300"
    case Medium => "bg-orange-100 text-orange-800 border-orange-300"
    case High => "bg-red-100 text-red-800 border-red-300"
  }

  /** Distinct statuses get distinct colours, and so do priorities. */
  lemma ColorsDistinguish(s1: Status, s2: Status, p1: Priority, p2: Priority)
    ensures s1 != s2 ==> StatusColor(s1) != StatusColor(s2)
    ensures p1 != p2 ==> PriorityColor(p1) != PriorityColor(p2)
  {
  }

  /** `SOCKET_EVENTS`, key to event name. */
  const SocketEvents: map<string, string> := map[
    "TASK_CREATED" := "TASK_CREATED",
    "TASK_UPDATED" := "TASK_UPDATED",
    "TASK_FINISHED" := "TASK_FINISHED",
    "TASK_DELETED" := "TASK_DELETED",
    "TASK_ASSIGNED" := "TASK_ASSIGNED"]

  /** Every event name equals its key, and there are five events. */
  lemma SocketEventsNameThemselves()
    ensures |SocketEvents| == 5
    ensures forall k :: k in SocketEvents ==> SocketEvents[k] == k
  {
    assert SocketEvents.Keys == {"TASK_CREATED", "TASK_UPDATED", "TASK_FINISHED", "TASK_DELETED", "TASK_ASSIGNED"};
  }
}
