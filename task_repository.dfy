/** Android's task store: a list of tasks replaced wholesale by each operation. */
module TaskRepository {
  import opened Wrappers
  import opened Domain
  import opened Seqs

  /** Android's task record. */
  datatype Task = Task(
    id: int,
    title: string,
    completed: bool,
    dueDate: Option<Day>,
    priority: Priority,
    userId: int,
    createdAt: Day)

  /** Some task in `s` has id `id`. */
  predicate HasId(s: seq<Task>, id: int) {
    exists k :: 0 <= k < |s| && s[k].id == id
  }

  /** The task with its completion flipped when it has id `id`. */
  function ToggleIf(t: Task, id: int): Task {
    if t.id == id then t.(completed := !t.completed) else t
  }

  /** The list after flipping `completed` on every task with id `id`: same length, same order,
      ids kept, every other task and every other field unchanged. */
  function ToggledById(s: seq<Task>, id: int): (r: seq<Task>)
    ensures |r| == |s|
    ensures forall k :: 0 <= k < |s| ==> r[k].id == s[k].id
    ensures forall k :: 0 <= k < |s| && s[k].id != id ==> r[k] == s[k]
    ensures forall k :: 0 <= k < |s| && s[k].id == id ==> r[k] == s[k].(completed := !s[k].completed)
  {
    seq(|s|, k requires 0 <= k < |s| => ToggleIf(s[k], id))
  }

  /** Toggling the same id twice restores the list. */
  lemma ToggleTwiceRestores(s: seq<Task>, id: int)
    ensures ToggledById(ToggledById(s, id), id) == s
  {
  }

  /** The first task with id `id` (`find`). */
  function FindById(s: seq<Task>, id: int): (r: Option<Task>)
    ensures r.None? <==> !HasId(s, id)
    ensures r.Some? ==> r.value in s && r.value.id == id
    ensures r.Some? ==> exists k :: 0 <= k < |s| && s[k] == r.value && forall j :: 0 <= j < k ==> s[j].id != id
  {
    if s == [] then None
    else if s[0].id == id then Some(s[0])
    else
      var r := FindById(s[1..], id);
      assert HasId(s, id) ==> HasId(s[1..], id) by {
        if HasId(s, id) {
          var k :| 0 <= k < |s| && s[k].id == id;
          assert s[1..][k - 1].id == id;
        }
      }
      assert r.Some? ==> exists k :: 0 <= k < |s| && s[k] == r.value && forall j :: 0 <= j < k ==> s[j].id != id by {
        if r.Some? {
          var k :| 0 <= k < |s[1..]| && s[1..][k] == r.value && forall j :: 0 <= j < k ==> s[1..][j].id != id;
          assert s[k + 1] == r.value;
          assert forall j :: 0 <= j < k + 1 ==> s[j].id != id by {
            forall j | 0 <= j < k + 1 ensures s[j].id != id {
              if j > 0 { assert s[j] == s[1..][j - 1]; }
            }
          }
        }
      }
      r
  }

  /** Every task except those with id `id`, in order. */
  function WithoutId(s: seq<Task>, id: int): (r: seq<Task>)
    ensures forall t :: t in r <==> t in s && t.id != id
  {
    Filter(s, (t: Task) => t.id != id)
  }

  /** Deleting shrinks the list exactly when some task had the id; otherwise the list is unchanged. */
  lemma DeleteShrinksIff(s: seq<Task>, id: int)
    ensures |WithoutId(s, id)| < |s| <==> HasId(s, id)
    ensures !HasId(s, id) ==> WithoutId(s, id) == s
  {
    FilterKeepsAll(s, (t: Task) => t.id != id);
    if HasId(s, id) {
      var k :| 0 <= k < |s| && s[k].id == id;
      assert s[k] in s;
    }
  }

  function Incomplete(s: seq<Task>): (r: seq<Task>)
    ensures forall t :: t in r <==> t in s && !t.completed
  {
    Filter(s, (t: Task) => !t.completed)
  }

  function Completed(s: seq<Task>): (r: seq<Task>)
    ensures forall t :: t in r <==> t in s && t.completed
  {
    Filter(s, (t: Task) => t.completed)
  }

  /** Clearing completed tasks removes exactly the completed ones: the counts add up. */
  lemma ClearedCount(s: seq<Task>)
    ensures |s| - |Incomplete(s)| == |Completed(s)|
    ensures multiset(Incomplete(s)) + multiset(Completed(s)) == multiset(s)
  {
    FilterSplit(s, (t: Task) => !t.completed, (t: Task) => t.completed);
  }

  class TaskRepository {
    var tasks: seq<Task>

    constructor ()
      ensures tasks == []
    {
      tasks := [];
    }

    /** Appends a new incomplete task at the end. The id, owner and creation day are those the
        `Task` constructor would supply. */
    method AddTask(id: int, title: string, priority: Priority, dueDate: Option<Day>, userId: int, createdAt: Day)
      returns (newTask: Task)
      modifies this
      ensures newTask == Task(id, title, false, dueDate, priority, userId, createdAt)
      ensures tasks == old(tasks) + [newTask]
    {
      newTask := Task(id, title, false, dueDate, priority, userId, createdAt);
      tasks := tasks + [newTask];
    }

    /** Flips `completed` on every task with the id; reports whether any task matched
        (the flag the mapping lambda sets). */
    method ToggleTaskCompleted(taskId: int) returns (wasToggled: bool)
      modifies this
      ensures tasks == ToggledById(old(tasks), taskId)
      ensures wasToggled == HasId(old(tasks), taskId)
    {
      wasToggled := false;
      var mapped: seq<Task> := [];
      var i := 0;
      while i < |tasks|
        invariant 0 <= i <= |tasks|
        invariant |mapped| == i
        invariant forall k :: 0 <= k < i ==> mapped[k] == ToggleIf(tasks[k], taskId)
        invariant wasToggled <==> exists k :: 0 <= k < i && tasks[k].id == taskId
      {
        var task := tasks[i];
        if task.id == taskId {
          wasToggled := true;
          mapped := mapped + [task.(completed := !task.completed)];
        } else {
          mapped := mapped + [task];
        }
        i := i + 1;
      }
      tasks := mapped;
    }

    /** Removes every task with the id; reports whether the list shrank, which is whether
        some task had the id. */
    method DeleteTask(taskId: int) returns (wasDeleted: bool)
      modifies this
      ensures tasks == WithoutId(old(tasks), taskId)
      ensures wasDeleted == HasId(old(tasks), taskId)
    {
      var filteredList := WithoutId(tasks, taskId);
      DeleteShrinksIff(tasks, taskId);
      wasDeleted := |filteredList| < |tasks|;
      tasks := filteredList;
    }

    /** Keeps only the incomplete tasks, in order; returns how many completed tasks were removed. */
    method ClearCompletedTasks() returns (count: int)
      modifies this
      ensures tasks == Incomplete(old(tasks))
      ensures count == |Completed(old(tasks))|
    {
      var remainingTasks := Incomplete(tasks);
      ClearedCount(tasks);
      count := |tasks| - |remainingTasks|;
      tasks := remainingTasks;
    }

    /** The tasks due on `date`. */
    function TasksForDate(date: Day): (r: seq<Task>)
      reads this
      ensures forall t :: t in r <==> t in tasks && t.dueDate == Some(date)
    {
      Filter(tasks, (t: Task) => t.dueDate == Some(date))
    }

    /** The incomplete tasks due before `today` (the value of `LocalDate.now()`). */
    function OverdueTasks(today: Day): (r: seq<Task>)
      reads this
      ensures forall t :: t in r <==> t in tasks && t.dueDate.Some? && t.dueDate.value < today && !t.completed
    {
      Filter(tasks, (t: Task) => t.dueDate.Some? && t.dueDate.value < today && !t.completed)
    }

    method ClearAllTasks()
      modifies this
      ensures tasks == []
    {
      tasks := [];
    }
  }
}
