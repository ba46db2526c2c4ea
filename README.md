# Task tracker services, modelled in Dafny

This project models the three service modules of a personal task tracker. Everything else in the
application is presentation that calls them.

- **Task store** (`src/services/api/taskService.js`). The store is an in-memory list of task records.
  It answers read queries: all tasks, one task by Id, by category, completed, archived, and a
  case-insensitive search. It also changes the list: create allocates `max Id + 1` and applies
  defaults; update merges a patch, protects the Id and applies a completion-timestamp rule; delete
  splices a record out; archive and restore are updates; bulk delete skips unknown Ids.
- **Analytics** (`src/services/api/statsService.js`). These are read-only projections of a snapshot
  of the store: totals, a rounded completion percentage, completions today and this week, the
  backward-walking day streak capped at 365, a seven-day series and a per-priority count of open
  tasks.
- **Category registry** (`src/services/api/categoryService.js`). A second in-memory list. Create
  allocates `max numeric Id + 1` as text. The listing adds a live `taskCount` of open, non-archived
  tasks to each category.

Layout:

- `outcomes.dfy`: `Option` (an absent key or a null field) and `Outcome` (a record, or not-found carrying the Id).
- `seqs.dfy`: the Array builtins the services use: `filter`, `map` (`Keys`), `findIndex`, `Math.max(...)` and `splice(i, 1)`. It also holds the facts about them: order, multiplicity, and the count-by-key bound.
- `text.dfy`: `toLowerCase`, `includes`, `parseInt` and `toString` on strings.
- `tasks.dfy`: the task records, the create and merge rules, and the `TaskStore` class. Its field `tasks` is reassigned by create, update, delete and bulk delete, which are methods. Its queries are functions.
- `task_lemmas.dfy`: properties relating the store's operations.
- `stats.dfy`: the analytics. The streak and the weekly series are loops, so they are methods. `GetUserStats` is a method too, because it runs the streak loop. The other statistics are functions.
- `categories.dfy`: the category records and the `CategoryRegistry` class.
- `scenarios.dfy`: client runs that use only the contracts.

Time is a parameter. `now` is passed to create, update and the statistics, and `weekStart` (the
source's `startOfWeek(now)`) is passed to the statistics. Timestamps are integers in milliseconds.
The day of a timestamp is `Stats.Day`, floor division by 86 400 000.

The code does not keep some properties one might expect of a task tracker. The model follows the code:

- "completed iff completedAt is set" is not kept. An update whose patch lacks `completed`, such as an archive (`taskService.js:105`) or a form edit, clears the completion time of a completed task and leaves it completed. `TaskLemmas.ArchiveBreaksCompletionConsistency` and `TaskLemmas.UpdateConsistencyExactly` state exactly when the property survives.
- Ids are unique only among the stored records. After the newest task is deleted, the next create hands out its Id again (`TaskLemmas.IdReusedAfterDeletingNewest`).
- There are no subtasks and no completion cascade. `createSubtask` and `getSubtasks` are called by components but are not defined in the task service.
- "Completed this week" counts completions strictly after the week start (`isAfter`), not at or after it.
- The weekly series counts archived tasks too.
- The task service's `getAll` returns every record, archived ones included.

## Model

| member | source | states |
|---|---|---|
| `Seqs.Filter` | src/services/api/taskService.js:26 | a filter keeps exactly the elements satisfying the predicate, and is never longer than its input |
| `Seqs.FilterConcat` | src/services/api/taskService.js:24-48 | filtering distributes over concatenation, so every query keeps the store's order |
| `Seqs.FilterMultiplicity` | src/services/api/taskService.js:24-48 | a query keeps every copy of a selected record and no copy of another |
| `Seqs.FilterMonotone` | src/services/api/statsService.js:15-16 | a weaker predicate keeps at least as many elements |
| `Seqs.FindIndex` | src/services/api/taskService.js:71 | the result is the first index whose element matches, or -1 exactly when none matches |
| `Seqs.Max` | src/services/api/taskService.js:52 | `Math.max` of a non-empty list is an element of it and bounds every element |
| `Seqs.RemoveAt` | src/services/api/taskService.js:99 | `splice(i, 1)` keeps the elements before `i` and shifts the later ones down by one, losing only the element at `i` |
| `Seqs.SumCountsBound` | src/services/api/statsService.js:82-87 | counts by pairwise different keys add up to at most the number of elements |
| `Text.Lower` | src/services/api/taskService.js:41 | lowering keeps the length and lowers each character |
| `Text.Includes` | src/services/api/taskService.js:44-45 | `includes` is true exactly when the query occurs at some position |
| `Text.IncludesEmpty` | src/services/api/taskService.js:44-45 | the empty query occurs in every string |
| `Text.ParseInt` | src/services/api/categoryService.js:33 | `parseInt` is NaN exactly when the text does not start with a digit |
| `Text.NatToString` | src/services/api/categoryService.js:35 | `toString` writes non-empty decimal digits without a leading zero |
| `Text.ParseIntOfNatToString` | src/services/api/categoryService.js:33-35 | `parseInt` reads back the number `toString` wrote |
| `Text.NatToStringInjective` | src/services/api/categoryService.js:35 | different numbers give different Id texts |
| `Tasks.OrElse` | src/services/api/taskService.js:56-58 | `value \|\| fallback`: the caller's non-empty text is kept, otherwise the fallback, so the result is never empty when the fallback is not empty |
| `Tasks.DateOrNull` | src/services/api/taskService.js:59 | `dueDate \|\| null`: the caller's non-empty date is kept, otherwise null, so a stored date is never empty |
| `Tasks.NextId` | src/services/api/taskService.js:52-54 | the allocated Id exceeds every stored Id; it is 1 on an empty store and otherwise one more than a stored Id |
| `Tasks.NewTask` | src/services/api/taskService.js:53-64 | the created record has the fresh Id, the caller's title, the defaults '' / 'personal' / 'medium' / null, so its category and priority are never empty and a due date is never empty, is open, unarchived, with no completion time, created now |
| `Tasks.Merge` | src/services/api/taskService.js:76-87 | update keeps the stored Id. Every other field takes the patch value when the key is present. A truthy `completed` on an open task stamps now. A completed task whose patch `completed` is not true loses its completion time. Otherwise the completion time is merged |
| `Tasks.TaskStore.constructor` | src/services/api/taskService.js:7 | the store starts with the records it is seeded with |
| `Tasks.TaskStore.GetAll` | src/services/api/taskService.js:10-13 | every record, archived ones too, in store order |
| `Tasks.TaskStore.GetById` | src/services/api/taskService.js:15-22 | the first record with the Id, or not-found carrying the Id exactly when no record has it |
| `Tasks.TaskStore.GetByCategory` | src/services/api/taskService.js:24-27 | a record is returned exactly when it has that category and is not archived |
| `Tasks.TaskStore.GetCompleted` | src/services/api/taskService.js:29-32 | a record is returned exactly when it is completed and not archived |
| `Tasks.TaskStore.GetArchived` | src/services/api/taskService.js:34-37 | a record is returned exactly when it is archived |
| `Tasks.TaskStore.Search` | src/services/api/taskService.js:39-48 | a record is returned exactly when it is not archived and the lowered query occurs in its lowered title or description |
| `Tasks.TaskStore.Create` | src/services/api/taskService.js:50-67 | the new record is appended, the store grows by exactly that record, and it is returned |
| `Tasks.TaskStore.Update` | src/services/api/taskService.js:69-91 | an unknown Id gives not-found and leaves the store unchanged. Otherwise the first matching record alone is replaced by its merge, in place, and returned |
| `Tasks.TaskStore.Delete` | src/services/api/taskService.js:93-101 | an unknown Id gives not-found and leaves the store unchanged. Otherwise the first matching record is removed and returned, and the rest keep their order |
| `Tasks.TaskStore.Archive` | src/services/api/taskService.js:103-106 | archive is exactly update with `{archived: true}` |
| `Tasks.TaskStore.Restore` | src/services/api/taskService.js:108-111 | restore is exactly update with `{archived: false}` |
| `Tasks.TaskStore.BulkDelete` | src/services/api/taskService.js:113-124 | the ids are processed in order. Each one removes the first record with it, if there is one, and appends that record to the result. Unknown ids are skipped |
| `TaskLemmas.CreateKeepsIdsUnique` | src/services/api/taskService.js:52-65 | create keeps Ids pairwise different |
| `TaskLemmas.IdReusedAfterDeletingNewest` | src/services/api/taskService.js:52 | create, delete of the created record, create again: the second create gets the same Id |
| `TaskLemmas.ArchiveRestoreRoundTrip` | src/services/api/taskService.js:103-111 | restore after archive gives the record back with `archived` false. A completed task also loses its completion time |
| `TaskLemmas.ArchiveBreaksCompletionConsistency` | src/services/api/taskService.js:85-86 | archiving a completed task leaves it completed with no completion time |
| `TaskLemmas.UpdateConsistencyExactly` | src/services/api/taskService.js:83-87 | on a consistent record, a patch without `completedAt` keeps "completed iff completion time" exactly when the patch has `completed` or the task is open |
| `TaskLemmas.UpdateKeepsIds` | src/services/api/taskService.js:76-89 | an update changes no Id in the store |
| `TaskLemmas.DeleteIsFilter` | src/services/api/taskService.js:95-99 | with unique Ids, delete leaves exactly the records with other Ids, in order |
| `TaskLemmas.RemoveSplitIsFilter` | src/services/api/taskService.js:99 | splicing out the only record with an Id is filtering that Id out |
| `TaskLemmas.FilterKeepsIdsUnique` | src/services/api/taskService.js:120 | removing records keeps Ids unique |
| `TaskLemmas.BulkDeleteKeepsUnlisted` | src/services/api/taskService.js:113-124 | with unique Ids, bulk delete leaves exactly the records whose Id is not listed, in order |
| `TaskLemmas.BulkDeleteConserves` | src/services/api/taskService.js:116-122 | what remains plus what was removed is the original store, as a multiset |
| `TaskLemmas.BulkDeleteRemovesOnlyListed` | src/services/api/taskService.js:116-122 | every removed record has a listed Id. The removed records follow the earlier ones, and there are no more of them than listed ids |
| `TaskLemmas.BulkDeleteRemovesOncePerId` | src/services/api/taskService.js:116-122 | for every Id, the records removed with that Id are no more than the times the list names it. Each listed id removes at most one record |
| `TaskLemmas.SearchEmptyQuery` | src/services/api/taskService.js:39-48 | the empty query returns every non-archived record |
| `TaskLemmas.SearchIgnoresQueryCase` | src/services/api/taskService.js:41 | a query and its lowered form give the same result |
| `Stats.StartOfDay` | src/services/api/statsService.js:12 | the start of a day is on that day and at most one day before the instant |
| `Stats.CompletionRate` | src/services/api/statsService.js:43 | 0 with no task. Otherwise the nearest integer to 100 × completed / total, halves rounded up. It lies in 0..100 when completed ≤ total |
| `Stats.RateBound` | src/services/api/statsService.js:43 | a rounded percentage of at most the total is at most 100 |
| `Stats.CompletedWithinTotal` | src/services/api/statsService.js:15-16 | the completed non-archived tasks are no more than the non-archived tasks |
| `Stats.CompletedToday` | src/services/api/statsService.js:18-20 | today's completions are at most the completed non-archived tasks |
| `Stats.CompletedThisWeek` | src/services/api/statsService.js:22-24 | this week's completions are at most the completed non-archived tasks |
| `Stats.FirstInstantOfWeekMissed` | src/services/api/statsService.js:18-24 | on the first day of the week, a task completed at exactly the start of the day counts today but not this week, because `isAfter` is strict |
| `Stats.TodayCountedInWeek` | src/services/api/statsService.js:18-24 | when the week began before today did, today's count is at most this week's. The first day of the week is excluded, and `Stats.FirstInstantOfWeekMissed` shows why |
| `Stats.Streak` | src/services/api/statsService.js:26-41 | the loop's result is the length of the run of days ending today that each have a completion, capped at 365 |
| `Stats.StreakIsUnique` | src/services/api/statsService.js:26-41 | at most one length satisfies the streak's description |
| `Stats.StreakZeroWithoutToday` | src/services/api/statsService.js:30-40 | with no completion today the streak is 0 |
| `Stats.StreakOfTwo` | src/services/api/statsService.js:30-40 | completions today and yesterday and none the day before give a streak of 2 |
| `Stats.GetUserStats` | src/services/api/statsService.js:8-52 | the five statistics over the non-archived tasks. The rate is at most 100 and the streak is as described |
| `Stats.CompletedCountIsCountBy` | src/services/api/statsService.js:63-65 | a day's count is the number of completed tasks whose completion day it is |
| `Stats.CountsOverDaysAsSum` | src/services/api/statsService.js:61-72 | the counts of consecutive days are counts by completion day |
| `Stats.CountsOverDaysBounded` | src/services/api/statsService.js:61-72 | the counts of consecutive days add up to at most the number of completed tasks |
| `Stats.SeriesTotalIsCounts` | src/services/api/statsService.js:61-72 | the sum of the series is the sum of the per-day counts |
| `Stats.WeeklyStats` | src/services/api/statsService.js:54-75 | seven entries in order, one for each day from the week start, each counting completed tasks (archived included) completed that day. They add up to at most the completed tasks |
| `Stats.PriorityBreakdown` | src/services/api/statsService.js:77-90 | the four per-priority counts of open tasks add up to at most the number of open tasks |
| `Categories.WithCounts` | src/services/api/categoryService.js:15-19 | one entry per category in order. Every field is kept except `taskCount`, which counts that category's open, non-archived tasks |
| `Categories.NextCategoryId` | src/services/api/categoryService.js:33-35 | "1" on an empty registry. With numeric Ids it is the decimal text, without leading zeros, of exactly one more than the largest parsed Id, so it differs from all of them. With a non-numeric Id it is "NaN" |
| `Categories.NewCategory` | src/services/api/categoryService.js:34-40 | the created category has the next Id, the caller's name, the defaults '#8B85F0' / 'Folder', and count 0 |
| `Categories.MergeCategory` | src/services/api/categoryService.js:52-56 | update keeps the stored Id; every other field takes the patch value when the key is present |
| `Categories.CategoryRegistry.constructor` | src/services/api/categoryService.js:8 | the registry starts with the categories it is seeded with |
| `Categories.CategoryRegistry.GetAll` | src/services/api/categoryService.js:11-20 | the listing keeps each stored category's fields and order, and only reads the registry |
| `Categories.CategoryRegistry.GetById` | src/services/api/categoryService.js:22-29 | the first category with the Id, or not-found carrying the Id exactly when none has it |
| `Categories.CategoryRegistry.Create` | src/services/api/categoryService.js:31-43 | the new category is appended and returned |
| `Categories.CategoryRegistry.Update` | src/services/api/categoryService.js:45-60 | an unknown Id gives not-found and leaves the registry unchanged. Otherwise only the first matching category is replaced by its merge |
| `Categories.CategoryRegistry.Delete` | src/services/api/categoryService.js:62-70 | an unknown Id gives not-found and leaves the registry unchanged. Otherwise the first match is removed and returned, and the rest keep their order |
| `Categories.CreateKeepsCategoryIdsUnique` | src/services/api/categoryService.js:33-41 | while Ids are numeric, create keeps them numeric and pairwise different |
| `Categories.NaNIdRepeats` | src/services/api/categoryService.js:33-35 | with a non-numeric Id present, two creates in a row both get "NaN" |
| `Categories.OpenCountIsCountBy` | src/services/api/categoryService.js:17 | a category's count is the number of open tasks carrying its Id |
| `Categories.TotalCountIsSum` | src/components/organisms/CategorySidebar.jsx:71 | the "All Tasks" sum is the sum of the counts by category Id |
| `Categories.CountsWithinOpenTasks` | src/components/organisms/CategorySidebar.jsx:71 | with distinct Ids, the "All Tasks" sum is at most the number of open tasks |
| `Scenarios.CreateThenComplete` | src/services/api/taskService.js:50-91 | a first task gets Id 1. Completing it makes a one-task store 100% complete |
| `Scenarios.IdReusedAfterDelete` | src/services/api/taskService.js:50-101 | create, delete, create on an empty store gives Id 1 twice |
| `Scenarios.ArchiveCompleted` | src/services/api/taskService.js:83-106 | an archived completed task is still completed but has no completion time |
| `Scenarios.DeleteFromEmpty` | src/services/api/taskService.js:93-98 | delete on an empty store is not-found with the Id and leaves the store empty |

## Left out

- The artificial latency (`delay`, promises). Every operation is a synchronous method or function.
- The mock data imports. Each store is seeded through its constructor.
- Calendar handling: time zones, DST effects of the 24-hour steps, `parseISO`, and ISO text for `createdAt`, `completedAt` and the series dates. Timestamps are millisecond integers and a day is a 24-hour block since the epoch.
- `startOfWeek` is a parameter (`weekStart`). `dayName` (`toLocaleDateString`) is not modelled, so `Stats.DailyStat` has no day label.
- `parseInt(id, 10)` on task-Id arguments. Task Ids and arguments are integers, so a text argument such as "3" is not modelled.
- Text.ParseInt: reads decimal digits only, unlike the JavaScript `parseInt` on category Ids. An Id starting with `0x` reads as 0 here, while JavaScript reads the digits after the prefix as hexadecimal: `"0x1A"` is 26 there, so the next Id would be `"27"` instead of `"1"`. An Id with leading whitespace or a sign counts as non-numeric here, which gives `"NaN"`. JavaScript skips the whitespace and applies the sign.
- Number width. JavaScript numbers are doubles, while Ids, counts and timestamps here are unbounded integers. `Math.max(...) + 1` (taskService.js:52, categoryService.js:33) loses precision past 2^53, and `toString()` writes numbers from 10^21 on in exponent form (`"1e+21"`). `Tasks.NextId`, `Categories.NextCategoryId` and `Text.NatToString` do not model either effect.
- Shared records. `getAll` (`[...tasks]`) copies only the list, so a caller holds the same record objects as the store. Records are values here, so this aliasing is not modelled. No caller in the application mutates them.
- `toLowerCase` beyond ASCII letters: Unicode case mapping is not modelled.
- Floating point in `Math.round((c / t) * 100)`. `Stats.CompletionRate` rounds the exact ratio.
- JavaScript object details: a patch key present with the value `undefined`, unknown extra keys, non-boolean `completed` values, and null text fields (a null description makes the source's search throw). Patches are typed records, and `Some` means the key is present.
- Subtasks and the completion cascade. The components call `createSubtask` and `getSubtasks`, but neither is defined in the task service.
- The presentation layer: components, routing, search debounce, polling, chart widths and the form validation in `TaskModal.jsx`.
- Tasks.TaskStore.GetByCategory, Tasks.TaskStore.GetCompleted, Tasks.TaskStore.GetArchived, Tasks.TaskStore.Search: their contracts state which records are selected. Order and multiplicity come from `Seqs.FilterConcat` and `Seqs.FilterMultiplicity`, since each query is a `Seqs.Filter` of the store.
