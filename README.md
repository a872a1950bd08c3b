# TaskMaster respect and streak scoring

TaskMaster is a to-do application with an Android client, a web client and a small server.
Each user has a respect level in [0, 100], a daily completion streak, a best streak and an
AI personality (supportive, balanced or savage). Task events move the respect level. Completing
a task gives +5 capped at 100. Un-completing gives -3 floored at 0. Deleting an incomplete task
gives -2 floored at 0. A completion also advances the streak. The respect level picks one of three
message tiers (high from 70, medium from 30, low below), and the tier and the personality pick the
list the AI character's message is drawn from.

This project models that core in Dafny:

- the shared rules, stated once (`ScoreRules`);
- Android's user store (`UserRepository`), task store (`TaskRepository`) and message
  provider (`AIResponseProvider`) as written in Kotlin;
- the orchestrating view model (`TaskViewModel`);
- the web client's scoring hook and message hook (`UseRespect`) and its message tables (`AIResponses`);
- the server's in-memory store (`Storage`);
- the web task list's filtering, sorting and labels (`TaskList`, with `Sorting` modelling
  `Array.prototype.sort`).

Android's stores update a single state value in place, so they are classes whose methods
reassign a `user` or `tasks` field. The web hook sends patches to the server, so its operations
are functions computing the list of patches. The server's merge (`Storage.MergeAll`) applies
them, and lemmas show that the result is the shared rule. Dates are day numbers. The current
day, the random index of a drawn message (`pick`, or `random` in [0, 1) on the web), new ids
and creation times are parameters.

Message lists are a `Provider` value: nine lists (three tiers times three personalities) of ten
strings each. Their wording is left open.

Behaviours worth noting:

- **Best streak after a restart.** A first completion, or one after a gap, sets the streak to 1
  without raising the best streak (UserRepository.kt:96-100 and :121-124, useRespect.ts:67-74 and
  :94-98). So the first completion after a reset leaves streak 1 over best streak 0, and
  `bestStreak >= streak` is not an invariant. `ScoreRules.RestartKeepsBest` states the restart rule for
  all inputs and `ScoreRules.BestStreakCanTrailStreak` gives the counterexample.
  `ScoreRules.StreakInvariant` states the invariant that does hold.
- **Toggling earns respect.** Completing and then un-completing a task (+5 capped, then -3) is a
  gain of 2 up to respect 95, a gain of 1 at 96, no change at 97, and a loss from 98 upwards,
  since the cap leaves 100 and the un-completion then gives 97 (`ScoreRules.CompleteThenUncomplete`).
- **Two reset baselines.** A reset sets respect to 50 on Android (`UserRepository.AndroidResetBaseline`)
  and to 100 on the web (`UseRespect.WebResetBaseline`). Both are named constants, and
  `UseRespect.WebResetResult` states that they differ.
- **Types in the Android record.** The Android user record in model/User.kt has no
  `lastCompletedDate` and types the personality as a string, yet UserRepository.kt reads and writes
  both as a date and an `AIPersonality`. The model follows UserRepository.kt: a day field and a
  three-value personality.

## Model

| member | source | states |
|---|---|---|
| Domain.PersonalityName | client/src/lib/ai-responses.ts:3 | every personality's key is one of the three `PersonalityType` strings |
| Domain.ParsePersonality | client/src/lib/ai-responses.ts:3-6 | a string names a personality iff it is one of the three keys, and naming the result gives the string back |
| Domain.PersonalityNameRoundTrip | client/src/lib/ai-responses.ts:3 | reading a personality's key back gives the personality |
| Seqs.Filter | android/app/src/main/java/com/example/taskmaster/data/TaskRepository.kt:63 | the kept elements are exactly those of the input satisfying the predicate, and never more of them |
| Seqs.FilterAppend | client/src/components/TaskList.tsx:47-51 | filtering distributes over concatenation, so kept elements keep their relative order |
| Seqs.FilterKeepsAll | android/app/src/main/java/com/example/taskmaster/data/TaskRepository.kt:63-64 | the length is unchanged iff every element satisfies the predicate, and then the list is unchanged |
| Seqs.FilterSplit | android/app/src/main/java/com/example/taskmaster/data/TaskRepository.kt:78-79 | two complementary filters partition the list: lengths add up and the multisets add up |
| ScoreRules.ApplyCompletion | android/app/src/main/java/com/example/taskmaster/data/UserRepository.kt:35 | +5 capped at 100: the result is 100 or r + 5, never above either, and never below r for r in range |
| ScoreRules.ApplyUncompletion | android/app/src/main/java/com/example/taskmaster/data/UserRepository.kt:52 | -3 floored at 0: the result is 0 or r - 3, never below either, and never above r when r >= 0 (a negative level, which the server does not rule out, is raised to 0) |
| ScoreRules.ApplyIncompleteDeletion | android/app/src/main/java/com/example/taskmaster/data/UserRepository.kt:67 | -2 floored at 0: the result is 0 or r - 2, never below either, and never above r when r >= 0 (a negative level, which the server does not rule out, is raised to 0) |
| ScoreRules.AdjustmentsStayInRange | android/app/src/main/java/com/example/taskmaster/data/UserRepository.kt:31-72 | all three adjustments map [0, 100] into [0, 100] |
| ScoreRules.CompleteThenUncomplete | android/app/src/main/java/com/example/taskmaster/viewmodel/TaskViewModel.kt:55-78 | completing then un-completing gives r + 2 up to 95 and 97 above it: a gain up to 96, no change at 97, a loss from 98 |
| ScoreRules.TierOf | android/app/src/main/java/com/example/taskmaster/data/AIResponseProvider.kt:12-18 | high iff level >= 70, medium iff 30 <= level < 70, low iff level < 30, for every integer |
| ScoreRules.TierMonotone | android/app/src/main/java/com/example/taskmaster/data/AIResponseProvider.kt:13-17 | more respect never gives a lower tier |
| ScoreRules.TierBoundaries | android/app/src/main/java/com/example/taskmaster/data/AIResponseProvider.kt:13-17 | 29 is low, 30 medium, 69 medium, 70 high |
| ScoreRules.IsYesterday | android/app/src/main/java/com/example/taskmaster/data/UserRepository.kt:128-131 | the day before today, hence strictly before it; the Android and web checks both reduce to it |
| ScoreRules.NextStreak | android/app/src/main/java/com/example/taskmaster/data/UserRepository.kt:91-126 | after a completion the last date is today, the best streak never falls, and the streak is 1, one more, or unchanged |
| ScoreRules.RestartKeepsBest | android/app/src/main/java/com/example/taskmaster/data/UserRepository.kt:96-124 | with no previous completion, or one that is neither today nor yesterday, the streak restarts at 1 and the best streak is left exactly as it was |
| ScoreRules.NextStreakIdempotent | android/app/src/main/java/com/example/taskmaster/data/UserRepository.kt:115-118 | a second completion on the same day changes nothing |
| ScoreRules.CompleteOnDays | android/app/src/main/java/com/example/taskmaster/data/UserRepository.kt:91-126 | after completions on a list of days the last date is the last day and the best streak has not fallen |
| ScoreRules.SameDayCompletionsChangeNothing | android/app/src/main/java/com/example/taskmaster/data/UserRepository.kt:115-118 | any number of completions on the last completion day leave the streak fields unchanged |
| ScoreRules.ConsecutiveDaysExtendStreak | android/app/src/main/java/com/example/taskmaster/data/UserRepository.kt:103-113 | one completion per consecutive day adds one per day, and the best streak ends at the maximum of the old best and the final streak |
| ScoreRules.NextStreakKeepsInvariant | android/app/src/main/java/com/example/taskmaster/data/UserRepository.kt:91-126 | non-negative counts, and best >= streak unless streak <= 1, are preserved by every completion |
| ScoreRules.BestStreakCanTrailStreak | android/app/src/main/java/com/example/taskmaster/data/UserRepository.kt:96-100 | the first completion after a reset gives streak 1 with best streak 0 |
| ScoreRules.StreakExamples | android/app/src/main/java/com/example/taskmaster/data/UserRepository.kt:91-126 | continuation below the record, a new record, a reset after a gap, a first completion, a future date |
| UserRepository.DefaultUser | android/app/src/main/java/com/example/taskmaster/data/UserRepository.kt:15 | the starting user keeps the given identity, is balanced, has no streak, is consistent, and has respect 50 (medium tier), the value an Android reset returns to |
| UserRepository.IsYesterdayAndroid | android/app/src/main/java/com/example/taskmaster/data/UserRepository.kt:128-131 | true iff the date is the day before today |
| UserRepository.UpdateStreakIfNeeded | android/app/src/main/java/com/example/taskmaster/data/UserRepository.kt:91-126 | the streak fields become the shared streak rule's result; identity, respect and personality are kept |
| UserRepository.ResetUser | android/app/src/main/java/com/example/taskmaster/data/UserRepository.kt:77-86 | respect becomes the baseline, streak fields are cleared, identity and personality are kept |
| UserRepository.ResetIsValid | android/app/src/main/java/com/example/taskmaster/data/UserRepository.kt:77-86 | a reset to a baseline in [0, 100] yields a user in range that keeps the streak invariant |
| UserRepository.UserRepository.constructor | android/app/src/main/java/com/example/taskmaster/data/UserRepository.kt:15 | the store starts with the default user (respect 50, no streak, balanced) |
| UserRepository.UserRepository.UpdateAIPersonality | android/app/src/main/java/com/example/taskmaster/data/UserRepository.kt:21-25 | only the personality changes |
| UserRepository.UserRepository.IncreaseRespectForTaskCompletion | android/app/src/main/java/com/example/taskmaster/data/UserRepository.kt:31-42 | respect follows the completion rule and is returned, it never falls, and the streak follows the streak rule |
| UserRepository.UserRepository.DecreaseRespectForTaskUncompletion | android/app/src/main/java/com/example/taskmaster/data/UserRepository.kt:48-57 | respect follows the un-completion rule and is returned; nothing else changes |
| UserRepository.UserRepository.DecreaseRespectForTaskDeletion | android/app/src/main/java/com/example/taskmaster/data/UserRepository.kt:63-72 | respect follows the deletion rule and is returned; nothing else changes |
| UserRepository.UserRepository.ResetProgress | android/app/src/main/java/com/example/taskmaster/data/UserRepository.kt:77-86 | the user is reset to respect 50 with cleared streak fields, keeping the personality |
| UserRepository.UserRepository.UpdateStreak | android/app/src/main/java/com/example/taskmaster/data/UserRepository.kt:91-126 | the user becomes the streak update of the old user, keeping the store's invariant |
| AIResponseProvider.TierPools.ForPersonality | android/app/src/main/java/com/example/taskmaster/data/AIResponseProvider.kt:21-25 | the list of one personality within a tier, ten messages long when the tier is full |
| AIResponseProvider.Pools.Pool | android/app/src/main/java/com/example/taskmaster/data/AIResponseProvider.kt:20-45 | the list for a tier and a personality, with ten messages in a full provider |
| AIResponseProvider.GetHighRespectMessage | android/app/src/main/java/com/example/taskmaster/data/AIResponseProvider.kt:20-27 | the drawn message is entry `pick` of the high-respect list for the personality |
| AIResponseProvider.GetMediumRespectMessage | android/app/src/main/java/com/example/taskmaster/data/AIResponseProvider.kt:29-36 | the drawn message is entry `pick` of the medium-respect list for the personality |
| AIResponseProvider.GetLowRespectMessage | android/app/src/main/java/com/example/taskmaster/data/AIResponseProvider.kt:38-45 | the drawn message is entry `pick` of the low-respect list for the personality |
| AIResponseProvider.GetMessage | android/app/src/main/java/com/example/taskmaster/data/AIResponseProvider.kt:12-18 | for every integer level the message is a member of the list for the level's tier and the personality |
| AIResponseProvider.EveryMessageCanBeDrawn | android/app/src/main/java/com/example/taskmaster/data/AIResponseProvider.kt:20-27 | every message of that list is the result for some pick |
| AIResponseProvider.GetMessageOutOfRange | android/app/src/main/java/com/example/taskmaster/data/AIResponseProvider.kt:12-18 | every negative level is served from the low list and every level over 100 from the high list |
| AIResponses.Lookup | client/src/lib/ai-responses.ts:6-9 | indexing a tier record yields a list iff the key is one of the three personality keys, and then the list of that personality |
| AIResponses.GetMessages | client/src/lib/ai-responses.ts:5-15 | the result is the lookup in the record of the level's tier, with the same thresholds as Android |
| AIResponses.GetMessagesDefinedIff | client/src/lib/ai-responses.ts:17-132 | a list is returned iff the key is supportive, balanced or savage, and it holds ten messages |
| AIResponses.GetMessagesDependsOnlyOnBand | client/src/lib/ai-responses.ts:8-14 | two levels in the same band give the same list |
| AIResponses.SameListAsAndroid | client/src/lib/ai-responses.ts:5-15 | both clients use the same thresholds and the same key for each personality: given the same nine lists (the wording of the real lists differs, see Left out), the web returns for a personality's key the list Android draws its message from |
| UseRespect.IsYesterdayWeb | client/src/hooks/useRespect.ts:101-107 | false for a missing date, otherwise true iff the date is the day before today |
| UseRespect.UpdateStreakPatch | client/src/hooks/useRespect.ts:62-99 | no patch without a user or after a completion already recorded today; a first-ever completion's patch leaves the best streak alone; any patch sets the date to today and leaves respect and personality alone |
| UseRespect.RespectForTaskCompletionPatches | client/src/hooks/useRespect.ts:110-133 | nothing without a user; otherwise first the capped or floored respect patch, and on an un-completion nothing else |
| UseRespect.RespectForTaskDeletedPatches | client/src/hooks/useRespect.ts:135-145 | nothing without a user; otherwise exactly the floored deletion patch |
| UseRespect.AIPersonalityPatches | client/src/hooks/useRespect.ts:147-158 | nothing is sent iff there is no user |
| UseRespect.ResetProgressPatches | client/src/hooks/useRespect.ts:160-168 | nothing is sent iff there is no user; what a sent patch does is stated by WebResetResult |
| UseRespect.WebCompletionMatchesRules | client/src/hooks/useRespect.ts:110-123 | once merged, a web completion gives the shared completion rule's respect and the shared streak rule's streak fields |
| UseRespect.WebUncompletionMatchesRules | client/src/hooks/useRespect.ts:124-132 | once merged, a web un-completion is exactly the shared un-completion rule |
| UseRespect.WebDeletionMatchesRules | client/src/hooks/useRespect.ts:135-145 | once merged, a web deletion is exactly the shared deletion rule |
| UseRespect.WebPersonalityResult | client/src/hooks/useRespect.ts:147-158 | once merged, a personality change sets the string as given and nothing else |
| UseRespect.WebResetResult | client/src/hooks/useRespect.ts:160-168 | once merged, a web reset gives respect 100 (the web baseline, unlike the 50 of an Android reset) and cleared streak fields, keeping the personality |
| UseRespect.LoadingFallbackIsResetState | client/src/hooks/useRespect.ts:189-193 | while loading, the hook shows what a web reset leaves (apart from the personality); its respect of 100 is not the 50 the server gives a new user |
| UseRespect.YesterdayChecksAgree | client/src/hooks/useRespect.ts:101-107 | for a present date the web check for "yesterday" agrees with Android's |
| UseRespect.FloorIndexInRange | client/src/hooks/useRespect.ts:207 | floor(random * length) is a valid index for random in [0, 1) and a non-empty list |
| UseRespect.UseMessages | client/src/hooks/useRespect.ts:202-212 | a message is chosen iff the personality is a known key, and it is a member of the `getMessages` list |
| Storage.MergeUser | server/storage.ts:62-69 | fields in the patch win, the others are kept, identity is kept, and no range is checked |
| Storage.MergeEmptyPatch | server/storage.ts:66 | an empty patch leaves the user unchanged |
| Storage.MergeUserIdempotent | server/storage.ts:66 | sending the same patch twice equals sending it once |
| Storage.MergeAll | server/storage.ts:62-69 | a series of updates never changes id, username or password |
| Storage.MergeTask | server/storage.ts:97-104 | fields in the patch win, the others are kept; id, owner and creation time are kept |
| Storage.OrDefault | server/storage.ts:56 | a missing or empty string gives the fallback, any other string is kept |
| Storage.MemStorage.constructor | server/storage.ts:29-34 | both maps are empty and both counters start at 1 |
| Storage.MemStorage.GetUser | server/storage.ts:37-39 | a user is found iff the id is stored, and it is the stored user |
| Storage.MemStorage.GetUserByUsername | server/storage.ts:41-45 | none iff no stored user has the name; otherwise a stored user with the name and the smallest such id |
| Storage.MemStorage.CreateUser | server/storage.ts:47-60 | the user is stored under the fresh counter value with respect 50, streak 0, best 0, no date and personality defaulting to "balanced"; tasks are untouched |
| Storage.MemStorage.UpdateUser | server/storage.ts:62-69 | a missing id returns none and changes nothing; otherwise the merged user is stored and returned |
| Storage.MemStorage.GetTasks | server/storage.ts:72-76 | exactly the stored tasks of that owner, in increasing id order |
| Storage.MemStorage.GetTask | server/storage.ts:78-80 | a task is found iff the id is stored, and it is the stored task |
| Storage.MemStorage.CreateTask | server/storage.ts:82-95 | the task is stored under the fresh counter value, incomplete, with priority defaulting to "medium" |
| Storage.MemStorage.UpdateTask | server/storage.ts:97-104 | a missing id returns none and changes nothing; otherwise the merged task is stored and returned |
| Storage.MemStorage.DeleteTask | server/storage.ts:106-112 | the result says whether the id existed; afterwards only that id is gone |
| Storage.CreatedIdsIncrease | server/storage.ts:47-48 | two users created in a row get increasing ids, both stored |
| TaskRepository.ToggledById | android/app/src/main/java/com/example/taskmaster/data/TaskRepository.kt:42-51 | same length and ids; tasks with the id have `completed` flipped, all other tasks are unchanged |
| TaskRepository.ToggleTwiceRestores | android/app/src/main/java/com/example/taskmaster/data/TaskRepository.kt:46 | toggling the same id twice restores the list |
| TaskRepository.FindById | android/app/src/main/java/com/example/taskmaster/viewmodel/TaskViewModel.kt:56 | none iff no task has the id; otherwise the first task with the id |
| TaskRepository.WithoutId | android/app/src/main/java/com/example/taskmaster/data/TaskRepository.kt:63 | exactly the tasks whose id differs |
| TaskRepository.DeleteShrinksIff | android/app/src/main/java/com/example/taskmaster/data/TaskRepository.kt:62-66 | the list shrinks iff some task had the id, and otherwise it is unchanged |
| TaskRepository.Incomplete | android/app/src/main/java/com/example/taskmaster/data/TaskRepository.kt:78 | exactly the incomplete tasks |
| TaskRepository.Completed | android/app/src/main/java/com/example/taskmaster/data/TaskRepository.kt:79 | exactly the completed tasks |
| TaskRepository.ClearedCount | android/app/src/main/java/com/example/taskmaster/data/TaskRepository.kt:77-81 | old length minus remaining length is the number of completed tasks, and the two parts make up the list |
| TaskRepository.TaskRepository.constructor | android/app/src/main/java/com/example/taskmaster/data/TaskRepository.kt:16 | the store starts empty |
| TaskRepository.TaskRepository.AddTask | android/app/src/main/java/com/example/taskmaster/data/TaskRepository.kt:22-34 | one new incomplete task is appended; the existing tasks and their order are kept |
| TaskRepository.TaskRepository.ToggleTaskCompleted | android/app/src/main/java/com/example/taskmaster/data/TaskRepository.kt:39-54 | the list becomes the toggled list, and the result is true iff some task had the id |
| TaskRepository.TaskRepository.DeleteTask | android/app/src/main/java/com/example/taskmaster/data/TaskRepository.kt:59-69 | every task with the id is removed, and the result is true iff some task had it |
| TaskRepository.TaskRepository.ClearCompletedTasks | android/app/src/main/java/com/example/taskmaster/data/TaskRepository.kt:74-84 | only incomplete tasks remain, in order, and the count removed is returned |
| TaskRepository.TaskRepository.TasksForDate | android/app/src/main/java/com/example/taskmaster/data/TaskRepository.kt:89-93 | exactly the tasks due on the date |
| TaskRepository.TaskRepository.OverdueTasks | android/app/src/main/java/com/example/taskmaster/data/TaskRepository.kt:98-103 | exactly the incomplete tasks due before today |
| TaskRepository.TaskRepository.ClearAllTasks | android/app/src/main/java/com/example/taskmaster/data/TaskRepository.kt:108-110 | the list is empty |
| TaskViewModel.TaskViewModel.constructor | android/app/src/main/java/com/example/taskmaster/viewmodel/TaskViewModel.kt:21-36 | fresh stores with no tasks and the default user, and the message drawn for respect 50 and balanced |
| TaskViewModel.TaskViewModel.AddTask | android/app/src/main/java/com/example/taskmaster/viewmodel/TaskViewModel.kt:48-50 | the task is appended; the user is untouched |
| TaskViewModel.TaskViewModel.ToggleTaskCompleted | android/app/src/main/java/com/example/taskmaster/viewmodel/TaskViewModel.kt:55-78 | an unknown id changes nothing; otherwise the task toggles and, judged on the task before the toggle, an incomplete one earns the completion and streak rules and a completed one the un-completion rule; then the message is redrawn |
| TaskViewModel.TaskViewModel.DeleteTask | android/app/src/main/java/com/example/taskmaster/viewmodel/TaskViewModel.kt:83-92 | the task is removed; only an existing incomplete task costs respect and redraws the message |
| TaskViewModel.TaskViewModel.ClearCompletedTasks | android/app/src/main/java/com/example/taskmaster/viewmodel/TaskViewModel.kt:97-99 | completed tasks are removed; only the task store may change |
| TaskViewModel.TaskViewModel.UpdateAIPersonality | android/app/src/main/java/com/example/taskmaster/viewmodel/TaskViewModel.kt:104-106 | only the personality changes |
| TaskViewModel.TaskViewModel.ResetProgress | android/app/src/main/java/com/example/taskmaster/viewmodel/TaskViewModel.kt:111-114 | the user is reset to 50 and the task list is empty |
| TaskViewModel.TaskViewModel.UpdateAIMessage | android/app/src/main/java/com/example/taskmaster/viewmodel/TaskViewModel.kt:119-126 | the message is drawn from the list for the current respect tier and personality |
| Sorting.InsertSorted | client/src/components/TaskList.tsx:51-61 | placing an element adds exactly that element |
| Sorting.SortWith | client/src/components/TaskList.tsx:51-61 | the sorted list is a permutation of the input |
| Sorting.SortWithSorted | client/src/components/TaskList.tsx:51-61 | with a comparator that agrees with a key, the result is ordered by that key |
| TaskList.ShownPartition | client/src/components/TaskList.tsx:47-50 | every task is shown under "all" and under exactly one of "completed" and "active" |
| TaskList.CompareByDueDate | client/src/components/TaskList.tsx:52-55 | an undated first task compares after, a dated first task before an undated one, and two dated tasks by the sign of their date difference |
| TaskList.PriorityValue | client/src/components/TaskList.tsx:57 | a value exists iff the priority is high, medium or low, and lies in 0..2 |
| TaskList.CompareByPriority | client/src/components/TaskList.tsx:56-59 | a number (not NaN) iff both priorities are known |
| TaskList.ComparatorFor | client/src/components/TaskList.tsx:51-60 | the due-date comparator for the due-date button; for the priority button, "before" exactly when both priorities are known and the first is more urgent (NaN reads as 0) |
| TaskList.FilteredTasks | client/src/components/TaskList.tsx:47-61 | every displayed task is a task of the list that the filter keeps, and the list never grows |
| TaskList.CompletedTasksCount | client/src/components/TaskList.tsx:63 | at most the list's length, and with the incomplete tasks it accounts for the whole list |
| TaskList.IsTaskOverdue | client/src/components/TaskList.tsx:39-45 | false for completed or undated tasks, otherwise true iff the due day is before today |
| TaskList.GetNotificationInterval | client/src/components/TaskList.tsx:139-146 | "No reminders" iff the priority is unknown; known priorities get hourly, daily, weekly in the priority sort order |
| TaskList.DueDateComparatorAgrees | client/src/components/TaskList.tsx:52-55 | the due-date comparator never contradicts the order dated-by-date, then undated |
| TaskList.DueDateComparatorInconsistent | client/src/components/TaskList.tsx:53-54 | two undated tasks each compare as greater than the other |
| TaskList.PriorityComparatorAgrees | client/src/components/TaskList.tsx:56-59 | with known priorities the comparator never contradicts the priority order |
| TaskList.UnknownPriorityComparesEqual | client/src/components/TaskList.tsx:57-59 | a task with an unknown priority compares equal (NaN read as 0) to any task |
| TaskList.FilteredTasksContents | client/src/components/TaskList.tsx:47-61 | the displayed list is a permutation of the kept tasks: all of them, the completed ones, or the incomplete ones |
| TaskList.AllFilterShowsEverything | client/src/components/TaskList.tsx:48 | the "all" filter shows every task once per occurrence |
| TaskList.DueDateSortOrder | client/src/components/TaskList.tsx:51-55 | sorted by due date, dated tasks come first in ascending date order, undated ones after |
| TaskList.PrioritySortOrder | client/src/components/TaskList.tsx:56-60 | sorted by priority, high comes before medium before low when all shown priorities are known |
| TaskList.CompletedCountMatchesFilter | client/src/components/TaskList.tsx:63 | the completed count is the length of the list the "completed" filter shows |
| TaskList.OverdueTasksAreActive | client/src/components/TaskList.tsx:39-50 | an overdue task is shown under "active" and never under "completed" |

## Left out

- Message wording: the nine Android lists (android/app/src/main/java/com/example/taskmaster/data/AIResponseProvider.kt:47-166) and the three web records (client/src/lib/ai-responses.ts:17-132) are a `Provider` value with ten messages per list. So the fact that the web savage lists are worded differently from Android's in every tier, while the other lists match, is not stated, and `AIResponses.SameListAsAndroid` is about equal lists only.
- Randomness and clocks: `List.random()` and `Math.random()` are the parameters `pick` and `random`; `LocalDate.now()` and `new Date()` are the parameter `today`. Ids and creation times are parameters too.
- Dates: JavaScript `Date` parsing, `toDateString` text and time zones are not modelled. Dates are day numbers, and a missing or empty date string is `None`. `isTaskOverdue` compares day numbers, not UTC and local midnights.
- Network: `fetch`, `apiRequest`, query invalidation and toasts in useRespect.ts are not modelled, nor server/routes.ts. Each web operation is the list of patches it sends, applied in order by `Storage.MergeAll`.
- The web reset's deletion of the user's tasks (client/src/hooks/useRespect.ts:170-186) is not modelled, since it is a series of network calls joined by `Promise.all`.
- Concurrency: StateFlow `update` atomicity and the coroutine that redraws the message on every user change (android/app/src/main/java/com/example/taskmaster/viewmodel/TaskViewModel.kt:38-42) are not modelled. Each operation is one sequential step, and the message is redrawn where the view model calls `updateAIMessage` itself.
- Notifications: `checkOverdueTasks` and `sendAINotification` (android/app/src/main/java/com/example/taskmaster/viewmodel/TaskViewModel.kt:131-149) and the notification call in `toggleTaskCompleted` are Android system services.
- Rendering: the list's JSX, animations and date formatting in TaskList.tsx are not modelled.
- Storage.MemStorage.GetTasks: JavaScript `Map` values come in insertion order. Ids are inserted in increasing order and never re-inserted, so the model returns tasks in increasing id order.
- Sorting.SortWith: `Array.prototype.sort` with a comparator that is not a consistent order is implementation-defined. Two undated tasks, or an unknown priority beside others, make it so here. The model is an insertion sort that gives one admissible outcome, and ordering is proved only for comparators that agree with a key. Stability is not stated.
- TaskList.PrioritySortOrder: stated only when every shown task has a known priority, because otherwise the comparator returns NaN and no order is promised.
- Integer widths: Kotlin `Int` and JavaScript numbers are unbounded integers here. Respect stays in [0, 100]; only a streak past 2^31 could overflow on Android.
- Android types: TaskRepository.kt:23-27 builds a `Task` without id or owner and compares a `Long` id with a `String`. The model's ids are integers, and `TaskRepository.TaskRepository.AddTask` takes the id, owner and creation day as parameters.
- AIResponses.GetMessages: a key that is not a property of the record yields `None` where the code yields `undefined`, and `UseRespect.UseMessages` returns `None` where the code throws on `undefined.length`. Keys inherited from `Object.prototype` ("toString", "constructor" and the like) are not modelled: for them the lookup yields a function or an object, and `useMessages` shows `undefined` without throwing.
