/** The dashboard's task list: the list of the active tab, narrowed by the
    status and priority filters and optionally sorted by due date with
    undated tasks last. */
module Dashboard {
  import opened Wrappers
  import opened Domain
  import opened Text
  import opened ClientTypes
  import opened DueSort

  datatype Tab = AssignedTab | CreatedTab | OverdueTab

  /** The three fetched lists; `None` while a list has not arrived. */
  datatype Lists = Lists(
    assignedToMe: Option<seq<ClientTask>>,
    created: Option<seq<ClientTask>>,
    overdue: Option<seq<ClientTask>>)

  /** `list || []`. */
  function OrEmpty(l: Option<seq<ClientTask>>): (r: seq<ClientTask>)
    ensures l.None? ==> r == []
    ensures l.Some? ==> r == l.value
  {
    if l.Some? then l.value else []
  }

  /** The list of the active tab, empty when it has not arrived. */
  function CurrentTasks(tab: Tab, lists: Lists): (r: seq<ClientTask>)
    ensures tab == AssignedTab ==> r == OrEmpty(lists.assignedToMe)
    ensures tab == CreatedTab ==> r == OrEmpty(lists.created)
    ensures tab == OverdueTab ==> r == OrEmpty(lists.overdue)
  {
    match tab
    case AssignedTab => OrEmpty(lists.assignedToMe)
    case CreatedTab => OrEmpty(lists.created)
    case OverdueTab => OrEmpty(lists.overdue)
  }

  /** The tab's list is whatever arrived for that tab and for no other. */
  lemma CurrentTasksIgnoresOtherTabs(tab: Tab, lists: Lists, other: Lists)
    requires tab == AssignedTab ==> lists.assignedToMe == other.assignedToMe
    requires tab == CreatedTab ==> lists.created == other.created
    requires tab == OverdueTab ==> lists.overdue == other.overdue
    ensures CurrentTasks(tab, lists) == CurrentTasks(tab, other)
  {
  }

  /** `overdueTasks?.length || 0`. */
  function OverdueCount(lists: Lists): (n: nat)
    ensures n == |CurrentTasks(OverdueTab, lists)|
    ensures lists.overdue.None? ==> n == 0
  {
    if lists.overdue.Some? then |lists.overdue.value| else 0
  }

  datatype StatusFilter = AnyStatus | OnlyStatus(status: Status)
  datatype PriorityFilter = AnyPriority | OnlyPriority(priority: Priority)
  datatype SortOrder = NoSort | Earliest | Latest

  predicate StatusPasses(f: StatusFilter, t: ClientTask)
  {
    f.AnyStatus? || t.status == f.status
  }

  predicate PriorityPasses(f: PriorityFilter, t: ClientTask)
  {
    f.AnyPriority? || t.priority == f.priority
  }

  function DueOf(t: ClientTask): Option<int>
  {
    t.dueDate
  }

  /** The comparator of the dashboard: tasks without a due date after those
      with one, in both directions. */
  function SortOrderOf(order: SortOrder): Order
  {
    if order == Latest then Order(Descending, UndatedLast) else Order(Ascending, UndatedLast)
  }

  /** The reference for the filter stage: the tasks passing both filters, in
      their original relative order. */
  function Wanted(current: seq<ClientTask>, sf: StatusFilter, pf: PriorityFilter): seq<ClientTask>
  {
    Keep(current, t => StatusPasses(sf, t) && PriorityPasses(pf, t))
  }

  lemma WantedMembers(current: seq<ClientTask>, sf: StatusFilter, pf: PriorityFilter)
    ensures |Wanted(current, sf, pf)| <= |current|
    ensures forall t :: t in Wanted(current, sf, pf) <==> t in current && StatusPasses(sf, t) && PriorityPasses(pf, t)
  {
    var w := Wanted(current, sf, pf);
    forall t | t in w
      ensures t in current && StatusPasses(sf, t) && PriorityPasses(pf, t)
    {
      var k :| 0 <= k < |w| && w[k] == t;
    }
    forall t | t in current && StatusPasses(sf, t) && PriorityPasses(pf, t)
      ensures t in w
    {
      var k :| 0 <= k < |current| && current[k] == t;
    }
  }

  /** The filter stage, a copy of the list narrowed by status and then by
      priority; a filter set to "all" is not applied. */
  function Filtered(current: seq<ClientTask>, sf: StatusFilter, pf: PriorityFilter): seq<ClientTask>
  {
    var byStatus := if sf.AnyStatus? then current else Keep(current, t => StatusPasses(sf, t));
    if pf.AnyPriority? then byStatus else Keep(byStatus, t => PriorityPasses(pf, t))
  }

  /** The two filters in a row keep exactly the tasks passing both, in their
      original relative order. */
  lemma FilteredIsConjunction(current: seq<ClientTask>, sf: StatusFilter, pf: PriorityFilter)
    ensures Filtered(current, sf, pf) == Wanted(current, sf, pf)
  {
    var byStatus := if sf.AnyStatus? then current else Keep(current, t => StatusPasses(sf, t));
    if sf.AnyStatus? {
      KeepAll(current, t => StatusPasses(sf, t));
    }
    if pf.AnyPriority? {
      KeepAll(byStatus, t => PriorityPasses(pf, t));
    }
    KeepKeep(current, t => StatusPasses(sf, t), t => PriorityPasses(pf, t), t => StatusPasses(sf, t) && PriorityPasses(pf, t));
  }

  /** `filteredAndSortedTasks`. */
  function FilteredAndSorted(current: seq<ClientTask>, sf: StatusFilter, pf: PriorityFilter, order: SortOrder): seq<ClientTask>
  {
    var filtered := Filtered(current, sf, pf);
    if order == NoSort then filtered else Sort(filtered, DueOf, SortOrderOf(order))
  }

  /** Dated tasks are ordered in the direction of `order`. */
  ghost predicate DatedInOrder(r: seq<ClientTask>, order: SortOrder)
  {
    forall i, j :: 0 <= i < j < |r| && r[i].dueDate.Some? && r[j].dueDate.Some? ==>
      if order == Latest then r[i].dueDate.value >= r[j].dueDate.value
      else r[i].dueDate.value <= r[j].dueDate.value
  }

  /** Every task with a due date comes before every task without one. */
  ghost predicate UndatedAfterDated(r: seq<ClientTask>)
  {
    forall i, j :: 0 <= i < j < |r| && r[j].dueDate.Some? ==> r[i].dueDate.Some?
  }

  /** The list shown is a rearrangement of exactly the tasks passing both
      filters, and unsorted it keeps their original order. */
  lemma FilteredAndSortedPermutes(current: seq<ClientTask>, sf: StatusFilter, pf: PriorityFilter, order: SortOrder)
    ensures var r := FilteredAndSorted(current, sf, pf, order);
      && multiset(r) == multiset(Wanted(current, sf, pf))
      && |r| <= |current|
      && (forall t :: t in r <==> t in current && StatusPasses(sf, t) && PriorityPasses(pf, t))
    ensures order == NoSort ==>
      FilteredAndSorted(current, sf, pf, order) == Wanted(current, sf, pf)
  {
    var filtered := Filtered(current, sf, pf);
    var r := FilteredAndSorted(current, sf, pf, order);
    FilteredIsConjunction(current, sf, pf);
    if order != NoSort {
      SortCorrect(filtered, DueOf, SortOrderOf(order));
    }
    assert multiset(r) == multiset(filtered);
    WantedMembers(current, sf, pf);
    assert forall t :: t in r <==> t in multiset(filtered);
  }

  /** Sorted, the dated tasks follow the chosen direction and the undated
      ones come last. */
  lemma FilteredAndSortedOrdered(current: seq<ClientTask>, sf: StatusFilter, pf: PriorityFilter, order: SortOrder)
    requires order != NoSort
    ensures DatedInOrder(FilteredAndSorted(current, sf, pf, order), order)
    ensures UndatedAfterDated(FilteredAndSorted(current, sf, pf, order))
  {
    var filtered := Filtered(current, sf, pf);
    var r := FilteredAndSorted(current, sf, pf, order);
    var o := SortOrderOf(order);
    assert r == Sort(filtered, DueOf, o);
    SortCorrect(filtered, DueOf, o);
    forall i, j | 0 <= i < j < |r| && r[j].dueDate.Some?
      ensures r[i].dueDate.Some?
    {
      UndatedLastInSorted(r, DueOf, o, i, j);
    }
    forall i, j | 0 <= i < j < |r| && r[i].dueDate.Some? && r[j].dueDate.Some?
      ensures if order == Latest then r[i].dueDate.value >= r[j].dueDate.value
              else r[i].dueDate.value <= r[j].dueDate.value
    {
      assert Precedes(o, DueOf(r[i]), DueOf(r[j]));
    }
  }
}
