# TaskFlow core, modelled in Dafny

TaskFlow is a small task-management web application. It has an in-memory
task store behind an asynchronous API, React Query hooks over that store,
an achievements state machine, an authentication context with three fixed
accounts, and two views that derive their numbers and buttons from the task
list: the dashboard and the task row. This project models that logic and
proves properties of it.

- `wrappers.dfy` (`Wrappers`): `Option` and `Result`. `Result.Err` stands for a thrown `Error` and carries its message.
- `ascii.dfy` (`Ascii`): `toLowerCase` and `toUpperCase`, restricted to ASCII letters.
- `task_api.dfy` (`TaskApi`): the mutable store.
  - It is a class, `TaskStore`, with the task list and the id counter as fields.
  - Its five operations are methods, each proved against specification functions: `WithStatus`, `IndexOfId`, `Merge`, `NewRecord` and `Removed`.
  - The lemmas concern the fresh-id invariant, filtering order and merge laws.
- `task_queries.dfy` (`TaskQueries`): the query-key factory and the two query hooks. It also gives the cache prefixes each mutation invalidates on success, with prefix matching that compares key elements by type.
- `achievements.dfy` (`Achievements`): the achievements reducer. The clock reading `Date.now()` is passed in as a parameter.
- `auth.dfy` (`Auth`): credential lookup over an account table. The provider holds the three fixed accounts. Login, logout and session restore are methods of a class, `AuthProvider`, over a storage map. JSON encoding and decoding are function parameters.
- `dashboard.dfy` (`Dashboard`): the greeting, the statistics, the pending count, the upcoming slice and the badge labels.
- `task_item.dfy` (`TaskItem`): the next-status table, the advance label, the row's buttons and their handlers.

JavaScript value conventions are written out explicitly:
- A missing or empty filter is falsy.
- A creation time of 0 is falsy.
- `!!id` is false for `""` and `0`.
- Object spread is modelled as presence-based override. A `Fields` patch holds each key as an `Option`, and a present key wins.

Behaviours worth noting, where the model follows the code:
- `createTask` stores any title, including a blank one. Only the form and the container reject blank titles.
- `HYDRATE` overwrites the counters with the payload's values rather than keeping the larger one.
- `first_task` is added when the new creation count is exactly 1 and the id is missing.
- A delete invalidates only the list queries and not the deleted task's detail key.

## Model

| member | source | states |
|---|---|---|
| TaskApi.TaskStore.constructor | src/api/taskApi.js:1-10 | The store starts with the six seed records in order and the id counter at 7. |
| TaskApi.SeedHasFreshIds | src/api/taskApi.js:1-10 | In the seed, ids are pairwise distinct and all below the counter 7. |
| TaskApi.TaskStore.FetchTasks | src/api/taskApi.js:16-26 | A missing, empty or `all` filter returns the whole list in store order; any other filter returns exactly the tasks with that status. The store is unchanged. |
| TaskApi.WithStatus | src/api/taskApi.js:22-23 | A task is in the result if and only if it is in the list and has the given status; the result is never longer than the list. |
| TaskApi.WithStatusAppend | src/api/taskApi.js:23 | Filtering keeps store order: it distributes over concatenation. |
| TaskApi.WithStatusExtremes | src/api/taskApi.js:23 | Filtering by a status every task has returns the list itself; filtering by one no task has returns nothing. |
| TaskApi.IndexOfId | src/api/taskApi.js:64 | Returns -1 if and only if no task has the id; otherwise the returned position holds the id and no earlier task does. |
| TaskApi.TaskStore.FetchTaskById | src/api/taskApi.js:35-37 | Fails with "Task not found" exactly when no task has the id; otherwise returns the first task with that id. The store is unchanged. |
| TaskApi.TaskStore.CreateTask | src/api/taskApi.js:47-54 | Appends one record and advances the counter by one. The record has status `todo` and today's date whatever the data says, the data's title, and the old counter as its id unless the data carries an id. |
| TaskApi.NewRecord | src/api/taskApi.js:47-52 | The new record takes the data's id when it carries one, else the counter. Its status is `todo` and its date is today, whatever the data says. Title, description and priority come from the data. |
| TaskApi.NewRecordIgnoresStatus | src/api/taskApi.js:47-52 | A `status` or `createdAt` in the data is overridden, and a blank title is stored as given. |
| TaskApi.CreateKeepsFreshIds | src/api/taskApi.js:47-53 | A create without a caller-supplied id keeps ids distinct and below the counter. |
| TaskApi.CreateWithIdCanDuplicate | src/api/taskApi.js:47-49 | A caller-supplied id wins over the counter, so a create can duplicate an existing id. |
| TaskApi.TaskStore.UpdateTask | src/api/taskApi.js:64-68 | Fails with "Task not found" and leaves the list unchanged when the id is absent. Otherwise it replaces the first matching record with that record merged with the patch, returns it, and changes no other position. |
| TaskApi.Merge | src/api/taskApi.js:67 | Shallow merge, field by field: a key the patch carries wins, and a key it lacks keeps the record's value. |
| TaskApi.MergeLaws | src/api/taskApi.js:67 | An empty patch is the identity; applying a patch twice equals applying it once; the merge leaves the record unchanged exactly when every key the patch carries already holds that value. |
| TaskApi.UpdateKeepsFreshIds | src/api/taskApi.js:64-67 | An update whose patch carries no id keeps ids distinct and below the counter. |
| TaskApi.TaskStore.DeleteTask | src/api/taskApi.js:78-82 | Fails with "Task not found" and leaves the list unchanged when the id is absent; otherwise removes the first matching record and returns success. |
| TaskApi.Removed | src/api/taskApi.js:81 | Removing position i shortens the list by one, keeps the records before i, and shifts the records after i down by one. |
| TaskApi.DeleteKeepsFreshIds | src/api/taskApi.js:78-81 | Deleting keeps ids distinct and below the counter. |
| TaskApi.DeleteTwiceFails | src/api/taskApi.js:78-81 | When ids are distinct, after a delete no task has that id, so a second delete of it fails. |
| TaskApi.DuplicateIdSurvivesOneDelete | src/api/taskApi.js:78-81 | With a duplicated id, the id is still found after one delete, so the distinct-ids premise is needed. |
| TaskQueries.KeyFamilies | src/hooks/useTasks.js:10-16 | `lists()` is a prefix of every list key, `details()` of every detail key and `all` of both; neither family reaches the other. |
| TaskQueries.KeysInjective | src/hooks/useTasks.js:13-15 | List keys are equal if and only if their filters are, detail keys if and only if their ids are, and no list key is a detail key. |
| TaskQueries.TasksQuery | src/hooks/useTasks.js:19-23 | The key and the fetcher use the same filter, which defaults to `all` when none is given. |
| TaskQueries.SameKeySameData | src/hooks/useTasks.js:19-23 | Two list queries with the same key fetch with the same filter. |
| TaskQueries.TaskQuery | src/hooks/useTasks.js:27-31 | The query is keyed and fetched by the id exactly as given, and is enabled if and only if the id is truthy, so never for `""` or `0`. |
| TaskQueries.CreateInvalidations | src/hooks/useTasks.js:41-43 | A successful create names the `lists()` prefix and nothing else; a failed one names nothing. |
| TaskQueries.UpdateInvalidations | src/hooks/useTasks.js:53-56 | A successful update names `lists()` and the detail key of the returned record's numeric id, and nothing else; a failed one names nothing. |
| TaskQueries.DeleteInvalidations | src/hooks/useTasks.js:66-68 | A successful delete names the `lists()` prefix and nothing else; a failed one names nothing. |
| TaskQueries.CreateInvalidatesLists | src/hooks/useTasks.js:41-43 | A create invalidates a key if and only if it succeeded and the key is a list key. |
| TaskQueries.UpdateInvalidatesListsAndDetail | src/hooks/useTasks.js:53-56 | An update invalidates a key if and only if it succeeded and the key is a list key or lies under the detail key of the returned record's numeric id. |
| TaskQueries.UpdateUsesReturnedId | src/hooks/useTasks.js:52-55 | When the patch rewrites the id, the new id's detail entry is invalidated and the old id's is not. |
| TaskQueries.DeleteInvalidatesLists | src/hooks/useTasks.js:66-68 | A delete invalidates a key if and only if it succeeded and the key is a list key; it never invalidates a detail key. |
| TaskQueries.DetailPageEntryMissed | src/hooks/useTasks.js:55 | A successful update never invalidates a detail query keyed by a string id, which is the form the detail page's route parameter takes. |
| TaskQueries.NoStringDetailReached | src/hooks/useTasks.js:55 | No update, successful or not, reaches a detail key whose id is a string. |
| TaskQueries.FixedUpdateReachesCallerEntry | src/hooks/useTasks.js:53-56 | The corrected update also invalidates the detail key of the mutation's own id argument. It reaches that entry, reaches everything the original reaches, and invalidates nothing on failure. |
| TaskQueries.InvalidationsAfter | src/hooks/useTasks.js:39-69 | The hooks as written. A create or delete invalidates a key if and only if it succeeded and the key is a list key. An update invalidates a key if and only if it succeeded and the key is a list key or lies under the returned record's numeric detail key. No mutation reaches a detail key with a string id, and every invalidated key lies under `all`. |
| TaskQueries.InvalidationsAfterFixed | src/hooks/useTasks.js:53-56 | The corrected invalidation. It invalidates everything the hooks as written do. A successful update also reaches the detail entry keyed by its own id argument, whatever the argument's type. Every invalidated key still lies under `all`. |
| Achievements.Reduce | src/hooks/useAchievements.js:44-117 | Except for hydration: the unlock list only grows, stays free of duplicates, and gains only ids from the table; the counters never decrease. Creation and completion enter unlocking exactly when the list grew. Celebration-complete only returns to idle, and an unknown action changes nothing. |
| Achievements.TaskCreatedEffect | src/hooks/useAchievements.js:46-61 | A creation counts one, stamps the time and leaves completions alone. It appends `first_task` exactly when this is the first creation and the id is missing; otherwise the list is unchanged. |
| Achievements.TaskCompletedEffect | src/hooks/useAchievements.js:64-85 | A completion counts one and leaves the creation fields alone. `task_master` is present afterwards exactly when it was before or the count reaches 5. `speed_demon` is present afterwards exactly when it was before, or a truthy last creation lies less than 60000 ms back. Nothing else is added. |
| Achievements.FiveCompletionsUnlockTaskMaster | src/hooks/useAchievements.js:64-71 | Five completions from zero unlock `task_master`. |
| Achievements.SpeedDemonWindow | src/hooks/useAchievements.js:73-78 | A completion d ms after a nonzero creation time unlocks `speed_demon` if and only if d < 60000. |
| Achievements.UnlockIdempotent | src/hooks/useAchievements.js:88-104 | An explicit unlock returns the state itself when the id is present. Otherwise it appends the one id and enters unlocking, with nothing else changed. Repeating it has no further effect. |
| Achievements.HydrateOverwrites | src/hooks/useAchievements.js:110-112 | For each of the five fields, a value the payload carries overwrites the state's, with no merging, and a field it lacks is kept. |
| Achievements.Persisted | src/hooks/useAchievements.js:138-142 | The snapshot carries the unlock list and both counters, and neither the status nor the last creation time. |
| Achievements.PersistRoundTrip | src/hooks/useAchievements.js:110-112 | Hydrating a state's own persisted snapshot changes nothing. Into the initial state, it restores the list and the counters in the idle state. |
| Achievements.HydratedFirstTaskNotRepeated | src/hooks/useAchievements.js:46-61 | After hydrating `first_task` with one creation, the next creation counts 2, does not add `first_task` again, and stays idle. |
| Achievements.RunGrows | src/hooks/useAchievements.js:44-117 | Over any run of actions without hydration, the list is extended as a prefix and stays duplicate-free, and both counters never decrease. |
| Achievements.Describe | src/hooks/useAchievements.js:154 | The lookup is defined if and only if the upper-cased id is a table key, and then yields that entry. |
| Achievements.DescribeKnown | src/hooks/useAchievements.js:19-25 | Each of the five ids looks up the table entry that carries that same id. |
| Achievements.RunKeepsLookupDefined | src/hooks/useAchievements.js:154 | Over any run without hydration from table ids, every unlocked id stays a table id, so the achievement lookup never yields `undefined`. |
| Achievements.IsUnlocking | src/hooks/useAchievements.js:155 | True if and only if the status is unlocking. |
| Achievements.UnlockShowsCelebration | src/hooks/useAchievements.js:88-107 | After an explicit unlock the hook reports unlocking exactly when the id was new or it was already unlocking; after celebration-complete it never does. |
| Achievements.Unlocked | src/hooks/useAchievements.js:154 | The hook's achievement list has one entry per unlocked id, in order, and each entry is that id's lookup. |
| Ascii.Lower | src/context/AuthContext.jsx:59 | Keeps the length and lower-cases each character. |
| Ascii.LowerIdempotent | src/context/AuthContext.jsx:59 | Lower-casing twice equals lower-casing once. |
| Ascii.Upper | src/hooks/useAchievements.js:154 | Keeps the length and upper-cases each character. |
| Auth.FirstAccepting | src/context/AuthContext.jsx:58-60 | Returns -1 if and only if no user accepts the credentials. Otherwise it returns the first user that accepts: the e-mail matches ignoring case and the password matches exactly. |
| Auth.Authenticate | src/context/AuthContext.jsx:58-67 | Against an account table: fails with "Invalid email or password" exactly when no account accepts. Otherwise it yields the first accepting account without its password. |
| Auth.WithoutPassword | src/context/AuthContext.jsx:67 | The stripped record keeps the id, name, e-mail and avatar. |
| Auth.StrippedAccountsDistinct | src/context/AuthContext.jsx:21-25 | Different accounts of the table stay different once stripped, so the signed-in record identifies the account that accepted. |
| Auth.AuthenticateIgnoresCase | src/context/AuthContext.jsx:59 | E-mails that lower-case alike have the same lookup outcome. |
| Auth.DemoAccountLogsIn | src/context/AuthContext.jsx:21-25 | The demo account logs in with its e-mail in any capitalisation. |
| Auth.PasswordIsCaseSensitive | src/context/AuthContext.jsx:59 | The password is compared exactly: "Demo" opens no account. |
| Auth.AuthProvider.constructor | src/context/AuthContext.jsx:36-37 | The provider starts with no user, loading, over the given storage, and checks logins against the three fixed accounts. |
| Auth.AuthProvider.Restore | src/context/AuthContext.jsx:40-50 | A missing or empty saved user changes nothing. One that parses becomes the user; one that does not parse is removed from storage. Loading ends in every case. |
| Auth.AuthProvider.Login | src/context/AuthContext.jsx:53-73 | The result is the lookup's outcome against the fixed accounts. On success the user is set and the password-free record is saved under `taskflow_user`; on failure nothing changes. |
| Auth.AuthProvider.Logout | src/context/AuthContext.jsx:76-80 | Clears the user and removes the saved user and achievements keys, and only those. |
| Auth.AuthProvider.IsAuthenticated | src/context/AuthContext.jsx:83 | True if and only if a user is signed in. |
| Dashboard.Greeting | src/pages/Dashboard.jsx:18-23 | Morning if and only if the hour is before 12; afternoon if and only if it is from 12 to 17; evening if and only if it is 18 or later. |
| Dashboard.FirstWord | src/pages/Dashboard.jsx:54 | Returns a prefix of the name that contains no space and ends at the first space or at the end of the name. |
| Dashboard.FirstWordOfFullName | src/pages/Dashboard.jsx:54 | For a first name without spaces, the first word of the first name, a space and any rest is the first name. |
| Dashboard.StatsOf | src/pages/Dashboard.jsx:39-46 | With no data, all counts are zero. The total is the list length, and each status count is the number of tasks with exactly that status, as the store's filter selects them. |
| Dashboard.Pending | src/pages/Dashboard.jsx:57 | The pending count is the todo count plus the in-progress count. It never exceeds the total, and under the three workflow statuses it is the number of tasks not done. |
| Dashboard.PendingBelowNotDone | src/pages/Dashboard.jsx:48-57 | Todo plus in-progress never exceeds the number of tasks not done, and falls strictly below it when some task's status is outside the workflow. |
| Dashboard.OffWorkflowNotPending | src/pages/Dashboard.jsx:48-57 | With a task whose status is outside the workflow, the pending count is smaller than the not-done count: such a task can be listed as upcoming without being counted as pending. |
| Dashboard.TwoCountsBounded | src/pages/Dashboard.jsx:41-46 | Two different statuses count disjoint tasks: their counts sum to at most the list length. |
| Dashboard.NotDone | src/pages/Dashboard.jsx:48 | A task is kept if and only if it is in the list and not done; the result's length is the list length minus the done count. |
| Dashboard.NotDoneAppend | src/pages/Dashboard.jsx:48 | The filter keeps list order and multiplicity: it distributes over concatenation. |
| Dashboard.NotDoneSingle | src/pages/Dashboard.jsx:48 | A single task is kept exactly when it is not done. |
| Dashboard.Upcoming | src/pages/Dashboard.jsx:48 | Returns the first four not-done tasks, or all of them when there are fewer, as a prefix in list order. |
| Dashboard.CountsPartition | src/pages/Dashboard.jsx:41-46 | Under the three workflow statuses, the counts sum to the list length and the not-done count is todo plus in-progress. |
| Dashboard.StatsConsistent | src/pages/Dashboard.jsx:41-57 | Under the three workflow statuses, the three counts sum to the total, the pending count is the total minus done, and the upcoming list holds min(4, pending) tasks. |
| Dashboard.BadgeLabel | src/pages/Dashboard.jsx:112 | "In Progress" if and only if the status is `in-progress`, otherwise "To Do". |
| Dashboard.GreetingExample | src/pages/Dashboard.jsx:54 | Alex Johnson at 15:00 is greeted "Good afternoon, Alex". |
| TaskItem.IndexOf | src/components/tasks/TaskItem.jsx:17 | Returns -1 if and only if the value is absent; otherwise the position of its first occurrence. |
| TaskItem.NextStatus | src/components/tasks/TaskItem.jsx:16-18 | There is no next status if and only if the status is done. Otherwise the next status is a workflow option other than the current one. |
| TaskItem.NextStatusTable | src/components/tasks/TaskItem.jsx:16-18 | The next status after todo is in-progress, after in-progress it is done, and done has none. A status outside the workflow goes to todo. |
| TaskItem.NextIsForward | src/components/tasks/TaskItem.jsx:16-18 | Within the workflow, the next status is the following option. |
| TaskItem.AdvanceTwiceReachesDone | src/components/tasks/TaskItem.jsx:16-18 | Two advances take todo to done, after which there is no advance. |
| TaskItem.AdvanceLabel | src/components/tasks/TaskItem.jsx:43 | "Move to In Progress" for in-progress, otherwise "Move to Done". |
| TaskItem.Buttons | src/components/tasks/TaskItem.jsx:37-51 | The advance button is shown if and only if there is a next status; view and delete are always shown. |
| TaskItem.Click | src/components/tasks/TaskItem.jsx:41-49 | Each button calls its handler with the task's id. Advance also passes the next status. |
| TaskItem.RowExamples | src/components/tasks/TaskItem.jsx:16-43 | A done task shows only view and delete. A task outside the workflow advances to todo under the label "Move to Done". |

## Left out

- Latency: the simulated network and login delays are dropped. Every operation is modelled as completing at once, so promise ordering and concurrency are not modelled.
- `Number(id)` coercion in the store: ids are integers. The string ids the detail page passes are modelled only in the query keys, where the string/number difference matters.
- React Query machinery beyond keys and invalidation is not modelled: the cache, refetching, stale time, retries, and loading and error flags.
- Browser storage is a map of strings. `JSON.stringify` and `JSON.parse` are function parameters whose behaviour is not modelled.
- The achievements hook's storage effects are not modelled as methods. The persisted snapshot is `Achievements.Persisted`, and its restore is the hydrate action.
- `Achievements.Reduce`: the `celebrating` state exists, but no action enters it. A hydrated status is one of the three enum values; arbitrary strings from storage are not modelled.
- Hydrate payloads are modelled with the five state fields only. Extra keys, and values of the wrong type, are not modelled.
- Action tags are modelled by constructors. An action whose `type` is one of the six handled strings is always the matching constructor; `Unrecognised` carries only the unhandled tags. The string dispatch itself is not modelled.
- `TaskApi.Merge`: patches hold the six record fields. Extra keys are not modelled, and neither are keys present with the value `undefined`.
- `TaskApi.TaskStore.FetchTaskById`, `TaskApi.TaskStore.CreateTask`, `TaskApi.TaskStore.UpdateTask`, `TaskApi.TaskStore.FetchTasks`: records are values. The repository returns the stored objects themselves: the found record, the pushed record, `tasks[index]`, and the stored objects inside the `[...tasks]` copy. A caller mutating a returned record would change the store; that aliasing is not modelled. Only the array copy of `fetchTasks` is new.
- `Ascii.Lower`, `Ascii.Upper`: only ASCII letters change case. Unicode case mapping is not modelled.
- Console logging, the notification context (`AppContext.jsx`), routing, and the presentation components are not part of this model. That covers `StatusBadge`, the form, the filter, the list, the layout and the achievements page's percentage.
- `Auth.AuthProvider.Restore`: any value that parses is taken as the user. A parsed value that is not a user record is not distinguished.

## Findings

| source | as written | input that shows it | evidently intended | confidence | as-written member | corrected member |
|---|---|---|---|---|---|---|
| src/hooks/useTasks.js:55 | After an update, only the detail key built from the returned record's numeric `id` is invalidated. The detail page (src/pages/TaskDetailPage.jsx:31-44) keys its query by the route parameter, a string. | On `/tasks/3`, change the task's status. The page's entry `['tasks','detail','3']` is not reached by `['tasks','detail',3]`, so the page keeps its stale copy. | The page's own detail entry is refreshed after its update. | medium: depends on the query library's typed key comparison; not executed | TaskQueries.DetailPageEntryMissed | TaskQueries.FixedUpdateReachesCallerEntry |
