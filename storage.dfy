/** The server's in-memory store (`MemStorage`): two maps from id to record and two id counters
    that start at 1 and grow by one per created record. */
module Storage {
  import opened Wrappers
  import opened Schema

  /** The respect level of every newly created user. */
  const NewUserRespect: int := 50

  /** `{ ...user, ...userData }`: fields present in the patch win, the others are kept.
      Nothing checks the range of the respect level. */
  function MergeUser(u: User, patch: UserPatch): (u': User)
    ensures u'.id == u.id && u'.username == u.username && u'.password == u.password
    ensures u'.respectLevel == patch.respectLevel.GetOr(u.respectLevel)
    ensures u'.streak == patch.streak.GetOr(u.streak)
    ensures u'.bestStreak == patch.bestStreak.GetOr(u.bestStreak)
    ensures u'.lastCompletedDate == patch.lastCompletedDate.GetOr(u.lastCompletedDate)
    ensures u'.aiPersonality == patch.aiPersonality.GetOr(u.aiPersonality)
  {
    User(u.id, u.username, u.password,
         if patch.respectLevel.Some? then patch.respectLevel.value else u.respectLevel,
         if patch.streak.Some? then patch.streak.value else u.streak,
         if patch.bestStreak.Some? then patch.bestStreak.value else u.bestStreak,
         if patch.lastCompletedDate.Some? then patch.lastCompletedDate.value else u.lastCompletedDate,
         if patch.aiPersonality.Some? then patch.aiPersonality.value else u.aiPersonality)
  }

  /** An empty patch leaves a user as it was. */
  lemma MergeEmptyPatch(u: User)
    ensures MergeUser(u, EmptyUserPatch) == u
  {
  }

  /** Merging is idempotent: sending the same patch twice is the same as sending it once. */
  lemma MergeUserIdempotent(u: User, patch: UserPatch)
    ensures MergeUser(MergeUser(u, patch), patch) == MergeUser(u, patch)
  {
  }

  /** The user after a series of `updateUser` calls, in order. */
  function MergeAll(u: User, patches: seq<UserPatch>): (u': User)
    ensures u'.id == u.id && u'.username == u.username && u'.password == u.password
    decreases |patches|
  {
    if patches == [] then u else MergeAll(MergeUser(u, patches[0]), patches[1..])
  }

  /** `{ ...task, ...taskData }` for tasks. */
  function MergeTask(t: Task, patch: TaskPatch): (t': Task)
    ensures t'.id == t.id && t'.userId == t.userId && t'.createdAt == t.createdAt
    ensures t'.completed == patch.completed.GetOr(t.completed)
    ensures t'.title == patch.title.GetOr(t.title)
    ensures t'.dueDate == patch.dueDate.GetOr(t.dueDate)
    ensures t'.priority == patch.priority.GetOr(t.priority)
  {
    Task(t.id, t.userId,
         if patch.title.Some? then patch.title.value else t.title,
         if patch.completed.Some? then patch.completed.value else t.completed,
         if patch.dueDate.Some? then patch.dueDate.value else t.dueDate,
         if patch.priority.Some? then patch.priority.value else t.priority,
         t.createdAt)
  }

  /** JavaScript's `value || fallback` on an optional string: absent and empty both fall back. */
  function OrDefault(s: Option<string>, fallback: string): (r: string)
    ensures s.Some? && s.value != "" ==> r == s.value
    ensures s.None? || s.value == "" ==> r == fallback
  {
    if s.Some? && s.value != "" then s.value else fallback
  }

  class MemStorage {
    var users: map<int, User>
    var tasks: map<int, Task>
    var userIdCounter: int
    var taskIdCounter: int

    /** Every stored id is positive, below its counter, and is the record's own id. */
    ghost predicate Valid()
      reads this
    {
      && 1 <= userIdCounter && 1 <= taskIdCounter
      && (forall id :: id in users ==> 1 <= id < userIdCounter && users[id].id == id)
      && (forall id :: id in tasks ==> 1 <= id < taskIdCounter && tasks[id].id == id)
    }

    constructor ()
      ensures Valid()
      ensures users == map[] && tasks == map[]
      ensures userIdCounter == 1 && taskIdCounter == 1
    {
      users := map[];
      tasks := map[];
      userIdCounter := 1;
      taskIdCounter := 1;
    }

    method GetUser(id: int) returns (r: Option<User>)
      ensures r.Some? <==> id in users
      ensures r.Some? ==> r.value == users[id]
    {
      r := if id in users then Some(users[id]) else None;
    }

    /** `Array.from(users.values()).find(...)`: map values come in insertion order, which is
        increasing id order, so the match returned is the one with the smallest id. */
    method GetUserByUsername(username: string) returns (r: Option<User>)
      requires Valid()
      ensures r.None? <==> forall id :: id in users ==> users[id].username != username
      ensures r.Some? ==> r.value.id in users && users[r.value.id] == r.value && r.value.username == username
      ensures r.Some? ==> forall id :: id in users && id < r.value.id ==> users[id].username != username
    {
      var id := 1;
      while id < userIdCounter
        invariant 1 <= id <= userIdCounter
        invariant forall k :: k in users && k < id ==> users[k].username != username
      {
        if id in users && users[id].username == username {
          return Some(users[id]);
        }
        id := id + 1;
      }
      r := None;
    }

    /** Stores a user under the next id with fixed starting scores, whatever the request says;
        the personality defaults to "balanced". */
    method CreateUser(insertUser: InsertUser) returns (user: User)
      requires Valid()
      modifies this
      ensures Valid()
      ensures user.id == old(userIdCounter) && user.id !in old(users)
      ensures userIdCounter == old(userIdCounter) + 1
      ensures user == User(user.id, insertUser.username, insertUser.password, NewUserRespect, 0, 0, None,
                           OrDefault(insertUser.aiPersonality, "balanced"))
      ensures users == old(users)[user.id := user]
      ensures tasks == old(tasks) && taskIdCounter == old(taskIdCounter)
    {
      var id := userIdCounter;
      userIdCounter := userIdCounter + 1;
      user := User(id, insertUser.username, insertUser.password, NewUserRespect, 0, 0, None,
                   OrDefault(insertUser.aiPersonality, "balanced"));
      users := users[id := user];
    }

    /** Shallow-merges the patch into an existing user; a missing id changes nothing. */
    method UpdateUser(id: int, userData: UserPatch) returns (r: Option<User>)
      requires Valid()
      modifies this
      ensures Valid()
      ensures id !in old(users) ==> r == None && users == old(users)
      ensures id in old(users) ==> r == Some(MergeUser(old(users)[id], userData))
                                   && users == old(users)[id := r.value]
      ensures tasks == old(tasks)
      ensures userIdCounter == old(userIdCounter) && taskIdCounter == old(taskIdCounter)
    {
      var user := GetUser(id);
      if user.None? {
        return None;
      }
      var updatedUser := MergeUser(user.value, userData);
      users := users[id := updatedUser];
      r := Some(updatedUser);
    }

    /** The tasks whose owner is `userId`, in insertion (increasing id) order. */
    method GetTasks(userId: int) returns (r: seq<Task>)
      requires Valid()
      ensures forall i :: 0 <= i < |r| ==> r[i].id in tasks && tasks[r[i].id] == r[i] && r[i].userId == userId
      ensures forall id :: id in tasks && tasks[id].userId == userId ==> tasks[id] in r
      ensures forall i, j :: 0 <= i < j < |r| ==> r[i].id < r[j].id
    {
      r := [];
      var id := 1;
      while id < taskIdCounter
        invariant 1 <= id <= taskIdCounter
        invariant forall i :: 0 <= i < |r| ==> r[i].id in tasks && tasks[r[i].id] == r[i] && r[i].userId == userId
        invariant forall k :: k in tasks && tasks[k].userId == userId && k < id ==> tasks[k] in r
        invariant forall i :: 0 <= i < |r| ==> r[i].id < id
        invariant forall i, j :: 0 <= i < j < |r| ==> r[i].id < r[j].id
      {
        if id in tasks && tasks[id].userId == userId {
          r := r + [tasks[id]];
        }
        id := id + 1;
      }
    }

    method GetTask(id: int) returns (r: Option<Task>)
      ensures r.Some? <==> id in tasks
      ensures r.Some? ==> r.value == tasks[id]
    {
      r := if id in tasks then Some(tasks[id]) else None;
    }

    /** Stores a new, incomplete task under the next id; priority defaults to "medium",
        and `now` is the creation time. */
    method CreateTask(insertTask: InsertTask, now: int) returns (task: Task)
      requires Valid()
      modifies this
      ensures Valid()
      ensures task.id == old(taskIdCounter) && task.id !in old(tasks)
      ensures taskIdCounter == old(taskIdCounter) + 1
      ensures task == Task(task.id, insertTask.userId, insertTask.title, false, insertTask.dueDate,
                           OrDefault(insertTask.priority, "medium"), now)
      ensures tasks == old(tasks)[task.id := task]
      ensures users == old(users) && userIdCounter == old(userIdCounter)
    {
      var id := taskIdCounter;
      taskIdCounter := taskIdCounter + 1;
      task := Task(id, insertTask.userId, insertTask.title, false, insertTask.dueDate,
                   OrDefault(insertTask.priority, "medium"), now);
      tasks := tasks[id := task];
    }

    /** Shallow-merges the patch into an existing task; a missing id changes nothing. */
    method UpdateTask(id: int, taskData: TaskPatch) returns (r: Option<Task>)
      requires Valid()
      modifies this
      ensures Valid()
      ensures id !in old(tasks) ==> r == None && tasks == old(tasks)
      ensures id in old(tasks) ==> r == Some(MergeTask(old(tasks)[id], taskData))
                                   && tasks == old(tasks)[id := r.value]
      ensures users == old(users)
      ensures userIdCounter == old(userIdCounter) && taskIdCounter == old(taskIdCounter)
    {
      var task := GetTask(id);
      if task.None? {
        return None;
      }
      var updatedTask := MergeTask(task.value, taskData);
      tasks := tasks[id := updatedTask];
      r := Some(updatedTask);
    }

    /** Removes the task if present; the result says whether it was there. */
    method DeleteTask(id: int) returns (existed: bool)
      requires Valid()
      modifies this
      ensures Valid()
      ensures existed == (id in old(tasks))
      ensures tasks == old(tasks) - {id}
      ensures users == old(users)
      ensures userIdCounter == old(userIdCounter) && taskIdCounter == old(taskIdCounter)
    {
      existed := id in tasks;
      if existed {
        tasks := tasks - {id};
      }
    }
  }

  /** Two users created one after the other get different, increasing ids. */
  method CreatedIdsIncrease(s: MemStorage, a: InsertUser, b: InsertUser) returns (u1: User, u2: User)
    requires s.Valid()
    modifies s
    ensures s.Valid()
    ensures u1.id < u2.id && u1.id in s.users && u2.id in s.users
  {
    u1 := s.CreateUser(a);
    u2 := s.CreateUser(b);
  }
}
