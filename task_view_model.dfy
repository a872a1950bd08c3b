/** Android's orchestrator: it owns the task store and the user store, decides which scoring rule
    a task event triggers, and keeps the displayed AI message. */
module TaskViewModel {
  import opened Wrappers
  import opened Domain
  import opened ScoreRules
  import opened Tasks = TaskRepository
  import opened Users = UserRepository
  import opened AIResponseProvider

  class TaskViewModel {
    const taskRepository: Tasks.TaskRepository
    const userRepository: Users.UserRepository
    const aiResponseProvider: Provider
    var currentAIMessage: string

    ghost predicate Valid()
      reads this, userRepository
    {
      userRepository.Valid()
    }

    /** Starts with no tasks, a default user and the message for that user; `provider` holds the
        message lists and `pick` is the random choice among a list's messages. */
    constructor (userId: int, username: string, provider: Provider, pick: nat)
      requires pick < PoolSize
      ensures Valid() && fresh(taskRepository) && fresh(userRepository)
      ensures taskRepository.tasks == [] && userRepository.user == DefaultUser(userId, username)
      ensures aiResponseProvider == provider && currentAIMessage == GetMessage(provider, 50, Balanced, pick)
    {
      taskRepository := new Tasks.TaskRepository();
      userRepository := new Users.UserRepository(userId, username);
      aiResponseProvider := provider;
      currentAIMessage := GetMessage(provider, 50, Balanced, pick);
    }

    /** Adds a task; neither the user nor the message changes. */
    method AddTask(id: int, title: string, priority: Priority, dueDate: Option<Day>, userId: int, createdAt: Day)
      requires Valid()
      modifies taskRepository
      ensures Valid()
      ensures taskRepository.tasks == old(taskRepository.tasks) + [Task(id, title, false, dueDate, priority, userId, createdAt)]
    {
      var _ := taskRepository.AddTask(id, title, priority, dueDate, userId, createdAt);
    }

    /** Toggles a task. The rule is chosen from the task as it was before the toggle: an incomplete
        task earns the completion rule and a streak update, a completed one the un-completion rule.
        An unknown id changes neither store. */
    method ToggleTaskCompleted(taskId: int, today: Day, pick: nat)
      requires Valid() && pick < PoolSize
      modifies this, taskRepository, userRepository
      ensures Valid()
      ensures var found := FindById(old(taskRepository.tasks), taskId);
        if found.None? then
          taskRepository.tasks == old(taskRepository.tasks) && userRepository.user == old(userRepository.user)
          && currentAIMessage == old(currentAIMessage)
        else
          && taskRepository.tasks == ToggledById(old(taskRepository.tasks), taskId)
          && (found.value.completed ==>
                userRepository.user == old(userRepository.user).(respectLevel := ApplyUncompletion(old(userRepository.user).respectLevel)))
          && (!found.value.completed ==>
                userRepository.user == UpdateStreakIfNeeded(
                  old(userRepository.user).(respectLevel := ApplyCompletion(old(userRepository.user).respectLevel)), today))
          && currentAIMessage == GetMessage(aiResponseProvider, userRepository.user.respectLevel, userRepository.user.aiPersonality, pick)
    {
      var task := FindById(taskRepository.tasks, taskId);
      if task.None? {
        return;
      }
      var wasToggled := taskRepository.ToggleTaskCompleted(taskId);
      if wasToggled {
        if task.value.completed {
          var _ := userRepository.DecreaseRespectForTaskUncompletion();
        } else {
          var newRespectLevel := userRepository.IncreaseRespectForTaskCompletion(today);
        }
        UpdateAIMessage(pick);
      }
    }

    /** Deletes a task. Only deleting an existing incomplete task costs respect (and refreshes
        the message); deleting a completed or unknown task leaves the user as it was. */
    method DeleteTask(taskId: int, pick: nat)
      requires Valid() && pick < PoolSize
      modifies this, taskRepository, userRepository
      ensures Valid()
      ensures var found := FindById(old(taskRepository.tasks), taskId);
        && taskRepository.tasks == WithoutId(old(taskRepository.tasks), taskId)
        && (found.Some? && !found.value.completed ==>
              userRepository.user == old(userRepository.user).(respectLevel := ApplyIncompleteDeletion(old(userRepository.user).respectLevel))
              && currentAIMessage == GetMessage(aiResponseProvider, userRepository.user.respectLevel, userRepository.user.aiPersonality, pick))
        && (found.None? || found.value.completed ==>
              userRepository.user == old(userRepository.user) && currentAIMessage == old(currentAIMessage))
    {
      var task := FindById(taskRepository.tasks, taskId);
      if task.None? {
        DeleteShrinksIff(taskRepository.tasks, taskId);
        return;
      }
      var wasDeleted := taskRepository.DeleteTask(taskId);
      if wasDeleted && !task.value.completed {
        var _ := userRepository.DecreaseRespectForTaskDeletion();
        UpdateAIMessage(pick);
      }
    }

    /** Removes the completed tasks; respect and streak are not touched. */
    method ClearCompletedTasks()
      requires Valid()
      modifies taskRepository
      ensures Valid()
      ensures taskRepository.tasks == Incomplete(old(taskRepository.tasks))
    {
      var _ := taskRepository.ClearCompletedTasks();
    }

    method UpdateAIPersonality(personality: Personality)
      requires Valid()
      modifies userRepository
      ensures Valid()
      ensures userRepository.user == old(userRepository.user).(aiPersonality := personality)
    {
      userRepository.UpdateAIPersonality(personality);
    }

    /** Resets the user to the Android baseline and empties the task list. */
    method ResetProgress()
      requires Valid()
      modifies taskRepository, userRepository
      ensures Valid()
      ensures userRepository.user == ResetUser(old(userRepository.user), AndroidResetBaseline)
      ensures taskRepository.tasks == []
    {
      userRepository.ResetProgress();
      taskRepository.ClearAllTasks();
    }

    /** Recomputes the displayed message from the current respect level and personality. */
    method UpdateAIMessage(pick: nat)
      requires pick < PoolSize
      modifies this
      ensures currentAIMessage == GetMessage(aiResponseProvider, userRepository.user.respectLevel, userRepository.user.aiPersonality, pick)
      ensures currentAIMessage in aiResponseProvider.Pool(TierOf(userRepository.user.respectLevel), userRepository.user.aiPersonality)
    {
      currentAIMessage := GetMessage(aiResponseProvider, userRepository.user.respectLevel, userRepository.user.aiPersonality, pick);
    }
  }
}
