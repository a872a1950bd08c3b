/** The web task list's view logic (`TaskList`): the completed/active filter, the two sort orders,
    the overdue marker, the completed count and the reminder label of a priority. */
module TaskList {
  import opened Wrappers
  import opened Domain
  import opened Schema
  import opened Seqs
  import opened Sorting

  /** The filter selector's three values. */
  datatype TaskFilter = All | Completed | Active

  /** The two sort buttons. */
  datatype SortMethod = ByDueDate | ByPriority

  /** The filter callback: everything, only completed tasks, or only incomplete ones. */
  predicate Shown(filter: TaskFilter, task: Task) {
    match filter
    case All => true
    case Completed => task.completed
    case Active => !task.completed
  }

  /** The due-date comparator: an undated first task goes after, an undated second task before,
      and two dated tasks compare by date. */
  function CompareByDueDate(a: Task, b: Task): (c: int)
    ensures a.dueDate.None? ==> c > 0
    ensures a.dueDate.Some? && b.dueDate.None? ==> c < 0
    ensures a.dueDate.Some? && b.dueDate.Some? ==>
      (c < 0 <==> a.dueDate.value < b.dueDate.value) && (c == 0 <==> a.dueDate.value == b.dueDate.value)
  {
    if a.dueDate.None? then 1
    else if b.dueDate.None? then -1
    else a.dueDate.value - b.dueDate.value
  }

  /** `priorityValue`: high 0, medium 1, low 2; any other text has no value (`undefined`). */
  function PriorityValue(priority: string): (v: Option<int>)
    ensures v.Some? <==> priority in {"high", "medium", "low"}
    ensures v.Some? ==> 0 <= v.value <= 2
  {
    if priority == "high" then Some(0)
    else if priority == "medium" then Some(1)
    else if priority == "low" then Some(2)
    else None
  }

  /** The priority comparator: the difference of the two values, `None` for NaN when either
      priority has no value. */
  function CompareByPriority(a: Task, b: Task): (c: Option<int>)
    ensures c.Some? <==> PriorityValue(a.priority).Some? && PriorityValue(b.priority).Some?
  {
    match (PriorityValue(a.priority), PriorityValue(b.priority))
    case (Some(x), Some(y)) => Some(x - y)
    case _ => None
  }

  /** The comparator handed to `sort`, with a NaN result read as 0 as `Array.prototype.sort` does. */
  function ComparatorFor(order: SortMethod): (cmp: (Task, Task) -> int)
    ensures order == ByDueDate ==> forall a, b :: cmp(a, b) == CompareByDueDate(a, b)
    ensures order == ByPriority ==> forall a, b :: cmp(a, b) < 0 <==>
      PriorityValue(a.priority).Some? && PriorityValue(b.priority).Some? &&
      PriorityValue(a.priority).value < PriorityValue(b.priority).value
  {
    match order
    case ByDueDate => CompareByDueDate
    case ByPriority => (a: Task, b: Task) => CompareByPriority(a, b).GetOr(0)
  }

  /** `filteredTasks`: the tasks the filter keeps, sorted by the selected method. */
  function FilteredTasks(tasks: seq<Task>, filter: TaskFilter, order: SortMethod): (r: seq<Task>)
    ensures |r| <= |tasks|
    ensures forall t :: t in r ==> t in tasks && Shown(filter, t)
  {
    var kept := Filter(tasks, (t: Task) => Shown(filter, t));
    var r := SortWith(kept, ComparatorFor(order));
    assert forall t :: t in r ==> t in kept by {
      forall t | t in r ensures t in kept {
        assert t in multiset(r);
      }
    }
    r
  }

  /** `completedTasksCount`: the number of completed tasks, never more than the list's length;
      together with the incomplete tasks it accounts for the whole list. */
  function CompletedTasksCount(tasks: seq<Task>): (n: nat)
    ensures n <= |tasks|
    ensures n + |Filter(tasks, (t: Task) => !t.completed)| == |tasks|
  {
    FilterSplit(tasks, (t: Task) => t.completed, (t: Task) => !t.completed);
    |Filter(tasks, (t: Task) => t.completed)|
  }

  /** `isTaskOverdue`: an incomplete task whose due date lies before today. */
  function IsTaskOverdue(task: Task, today: Day): (overdue: bool)
    ensures overdue ==> task.dueDate.Some? && !task.completed
    ensures task.dueDate.Some? && !task.completed ==> (overdue <==> task.dueDate.value < today)
  {
    if task.dueDate.None? || task.completed then false
    else task.dueDate.value < today
  }

  /** `getNotificationInterval`: a reminder label for each known priority, "No reminders" for
      any other text. The labels follow the priority sort order: the more urgent the priority,
      the more frequent the reminder. */
  function GetNotificationInterval(priority: string): (reminder: string)
    ensures reminder == "No reminders" <==> PriorityValue(priority).None?
    ensures PriorityValue(priority).Some? ==>
      reminder == ["Hourly reminders", "Daily reminders", "Weekly reminders"][PriorityValue(priority).value]
  {
    match priority
    case "high" => "Hourly reminders"
    case "medium" => "Daily reminders"
    case "low" => "Weekly reminders"
    case _ => "No reminders"
  }

  /** Every task is shown under "all", and under exactly one of "completed" and "active". */
  lemma ShownPartition(task: Task)
    ensures Shown(All, task)
    ensures Shown(Completed, task) <==> !Shown(Active, task)
  {
  }

  /** The due-date sort key: dated tasks first, by date; undated tasks after them. */
  function DueDateKey(task: Task): Key {
    if task.dueDate.Some? then Key(0, task.dueDate.value) else Key(1, 0)
  }

  /** The priority sort key: the priority's value. */
  function PriorityKey(task: Task): Key {
    Key(0, PriorityValue(task.priority).GetOr(0))
  }

  /** The due-date comparator never contradicts the due-date key, on any pair of tasks. */
  lemma DueDateComparatorAgrees(tasks: seq<Task>)
    ensures AgreesWith(tasks, CompareByDueDate, DueDateKey)
  {
  }

  /** ... but it is not a consistent order: two undated tasks each claim to go after the other. */
  lemma DueDateComparatorInconsistent(a: Task, b: Task)
    requires a.dueDate.None? && b.dueDate.None?
    ensures CompareByDueDate(a, b) > 0 && CompareByDueDate(b, a) > 0
  {
  }

  /** With known priorities the priority comparator never contradicts the priority key. */
  lemma PriorityComparatorAgrees(tasks: seq<Task>)
    requires forall t :: t in tasks ==> PriorityValue(t.priority).Some?
    ensures AgreesWith(tasks, ComparatorFor(ByPriority), PriorityKey)
  {
    forall i, j | 0 <= i < |tasks| && 0 <= j < |tasks|
      ensures CompareByPriority(tasks[i], tasks[j]).Some?
    {
      assert tasks[i] in tasks && tasks[j] in tasks;
    }
  }

  /** A task with an unknown priority compares as equal to every task, whatever its priority. */
  lemma UnknownPriorityComparesEqual(a: Task, b: Task)
    requires PriorityValue(a.priority).None?
    ensures ComparatorFor(ByPriority)(a, b) == 0 && ComparatorFor(ByPriority)(b, a) == 0
  {
  }

  /** The displayed list holds exactly the tasks the filter keeps, each as often as in `tasks`:
      "all" everything, "completed" only completed tasks, "active" only incomplete ones. */
  lemma FilteredTasksContents(tasks: seq<Task>, filter: TaskFilter, order: SortMethod)
    ensures var r := FilteredTasks(tasks, filter, order);
      && multiset(r) == multiset(Filter(tasks, (t: Task) => Shown(filter, t)))
      && (forall t :: t in r <==> t in tasks && Shown(filter, t))
  {
    var kept := Filter(tasks, (t: Task) => Shown(filter, t));
    var r := FilteredTasks(tasks, filter, order);
    forall t
      ensures t in r <==> t in kept
    {
      assert t in r <==> t in multiset(r);
      assert t in kept <==> t in multiset(kept);
    }
  }

  /** The "all" filter shows every task, each exactly once per occurrence. */
  lemma AllFilterShowsEverything(tasks: seq<Task>, order: SortMethod)
    ensures multiset(FilteredTasks(tasks, All, order)) == multiset(tasks)
  {
    FilterKeepsAll(tasks, (t: Task) => Shown(All, t));
  }

  /** Sorted by due date, every dated task comes before every undated one and dated tasks are in
      ascending date order. */
  lemma DueDateSortOrder(tasks: seq<Task>, filter: TaskFilter)
    ensures var r := FilteredTasks(tasks, filter, ByDueDate);
      forall i, j :: 0 <= i < j < |r| && r[j].dueDate.Some? ==>
        r[i].dueDate.Some? && r[i].dueDate.value <= r[j].dueDate.value
  {
    var kept := Filter(tasks, (t: Task) => Shown(filter, t));
    DueDateComparatorAgrees(kept);
    SortWithSorted(kept, CompareByDueDate, DueDateKey);
    var r := FilteredTasks(tasks, filter, ByDueDate);
    forall i, j | 0 <= i < j < |r| && r[j].dueDate.Some?
      ensures r[i].dueDate.Some? && r[i].dueDate.value <= r[j].dueDate.value
    {
      assert KeyLe(DueDateKey(r[i]), DueDateKey(r[j]));
    }
  }

  /** Sorted by priority, high comes before medium before low, when every shown task has one of
      the three priorities. */
  lemma PrioritySortOrder(tasks: seq<Task>, filter: TaskFilter)
    requires forall t :: t in tasks && Shown(filter, t) ==> PriorityValue(t.priority).Some?
    ensures var r := FilteredTasks(tasks, filter, ByPriority);
      forall i, j :: 0 <= i < j < |r| ==>
        && PriorityValue(r[i].priority).Some? && PriorityValue(r[j].priority).Some?
        && PriorityValue(r[i].priority).value <= PriorityValue(r[j].priority).value
  {
    var kept := Filter(tasks, (t: Task) => Shown(filter, t));
    PriorityComparatorAgrees(kept);
    SortWithSorted(kept, ComparatorFor(ByPriority), PriorityKey);
    var r := FilteredTasks(tasks, filter, ByPriority);
    FilteredTasksContents(tasks, filter, ByPriority);
    forall i, j | 0 <= i < j < |r|
      ensures PriorityValue(r[i].priority).Some? && PriorityValue(r[j].priority).Some?
      ensures PriorityValue(r[i].priority).value <= PriorityValue(r[j].priority).value
    {
      assert r[i] in r && r[j] in r;
      assert KeyLe(PriorityKey(r[i]), PriorityKey(r[j]));
    }
  }

  /** The count shown is the length of the list the "completed" filter displays. */
  lemma CompletedCountMatchesFilter(tasks: seq<Task>, order: SortMethod)
    ensures CompletedTasksCount(tasks) == |FilteredTasks(tasks, Completed, order)|
  {
    FilterSamePredicate(tasks, (t: Task) => t.completed, (t: Task) => Shown(Completed, t));
  }

  /** An overdue task is listed under "active" and never under "completed". */
  lemma OverdueTasksAreActive(tasks: seq<Task>, task: Task, today: Day, order: SortMethod)
    requires task in tasks && IsTaskOverdue(task, today)
    ensures task in FilteredTasks(tasks, Active, order)
    ensures task !in FilteredTasks(tasks, Completed, order)
  {
    FilteredTasksContents(tasks, Active, order);
    FilteredTasksContents(tasks, Completed, order);
  }
}
