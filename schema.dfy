/** The server's record shapes (shared/schema.ts): stored users and tasks, the insert payloads,
    and the partial update payloads. Dates are day numbers; timestamps are plain integers. */
module Schema {
  import opened Wrappers
  import opened Domain

  datatype User = User(
    id: int,
    username: string,
    password: string,
    respectLevel: int,
    streak: int,
    bestStreak: int,
    lastCompletedDate: Option<Day>,
    aiPersonality: string)

  datatype Task = Task(
    id: int,
    userId: int,
    title: string,
    completed: bool,
    dueDate: Option<Day>,
    priority: string,
    createdAt: int)

  /** What `createUser` is given; the personality is optional. */
  datatype InsertUser = InsertUser(username: string, password: string, aiPersonality: Option<string>)

  /** What `createTask` is given; the due date and priority are optional. */
  datatype InsertTask = InsertTask(userId: int, title: string, dueDate: Option<Day>, priority: Option<string>)

  /** A partial user: `None` is a field absent from the patch. A present `lastCompletedDate`
      may itself be null (`Some(None)`). */
  datatype UserPatch = UserPatch(
    respectLevel: Option<int>,
    streak: Option<int>,
    bestStreak: Option<int>,
    lastCompletedDate: Option<Option<Day>>,
    aiPersonality: Option<string>)

  /** A partial task: `None` is a field absent from the patch. */
  datatype TaskPatch = TaskPatch(
    completed: Option<bool>,
    title: Option<string>,
    dueDate: Option<Option<Day>>,
    priority: Option<string>)

  const EmptyUserPatch: UserPatch := UserPatch(None, None, None, None, None)
}
