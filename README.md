# trackapp core in Dafny

trackapp is a personal tracker: a Django REST backend and a browser frontend that record
work sessions on tasks and projects, habits with daily, weekly and monthly targets, short
"moments", and topics that are *primed*, *reviewed* and *studied*, each with an append-only
log of timestamps. This project models the core logic of that system and proves properties of it:

- the repetition logs: the prime, review and study items of the frontend and of the older
  `js/` tree, their totals, day, week and month windows, first and last dates and the
  first-studied moment, and the backend's `log_prime` action with its per-user querysets;
- the state machines: the session `Timer`, the `Habit` counters and the `TimeEntry` life cycle;
- the aggregations: the merged day feed of the list view, the per-task grouping and sums of the
  stats view, per-task and per-project totals of the workspace, and the category frequencies;
- the parsers and formatters: the `####` import format, the study cipher, the `HH:MM:SS`
  decomposition, the duration label and the countdown's clock inputs;
- the list and dictionary edits: the favourites list, the stored moments, and the renaming of
  properties between the frontend's camelCase and the API's snake_case.

There is one Dafny module per source file, named after it, except that `frontend/js/data/storage.js` is modelled by two: `Storage` for its payload normalisers and the prime-to-review conversion, and `MomentStorage` for its moment list. The shared modules are:
- `Common`: JavaScript's `??` and destructuring defaults, `trim`, `toLowerCase` and numerals;
- `RepetitionLog`: windows and extremes of a timestamp log;
- `Sorting`: the stable sort;
- `Clock`: JavaScript `%`, `HH:MM:SS` and `split`;
- `TaskGroups`: the grouping loop of the stats view.

Objects whose fields the source updates, such as items, the timer, the habit, the category
manager, the favourites store, the moment store, the countdown clock and the workspace
controller, are classes whose methods state their new state. Code that only computes is made
of functions, with lemmas relating them. Loops in the source are methods with loop invariants,
each proved against a function that states what it computes.

The current time (`Date.now()`, `timezone.now()`), fresh identifiers (`crypto.randomUUID()`),
the ISO rendering of a date, and the local midnight, week-start and month-start boundaries are
parameters. Timestamps are integers of milliseconds.

Where a getter compares ISO strings, the model uses the instant they denote.

## Model

| member | source | states |
|---|---|---|
| Common.ToLower | frontend/js/domain/prime-item.js:237 | `toLowerCase` keeps the length and every character other than `A`-`Z`, and turns each capital into the small letter at the same place in the alphabet |
| Common.ToLowerIdempotent | frontend/js/domain/prime-item.js:237 | lowering twice is the same as lowering once |
| Common.LowerTrimIdempotent | frontend/js/domain/prime-item.js:237 | a trimmed, lower-cased category is already in normal form |
| Common.TrimIdempotent | frontend/js/domain/prime-item.js:39-41 | a trimmed string neither starts nor ends with ECMAScript whitespace, and trimming it again changes nothing |
| Common.TrimEmptyIffBlank | js/utils/category-manager.js:167-173 | `s.trim()` is empty exactly when every character of `s` is whitespace (the blank input `incrementCategory` ignores) |
| Common.NormalizeCategory | frontend/js/domain/prime-item.js:237 | `category.trim().toLowerCase()` is already trimmed and lower-case, so normalising twice changes nothing |
| Common.Pad2 | js/controllers/countdown-controller.js:367-369 | `padStart(2, "0")` yields at least two characters, leaves a longer string alone, and otherwise prefixes only `0`s to the original |
| Common.Pad2Value | js/controllers/countdown-controller.js:367-369 | a zero-padded decimal numeral is all digits and reads back as the number it was written from |
| RepetitionLog.Since | frontend/js/domain/prime-item.js:81 | `ts.filter((t) => t >= start)` never holds more than the log |
| RepetitionLog.Between | frontend/js/domain/prime-item.js:96 | `ts.filter((t) => t >= lo && t < hi)` never holds more than the log |
| RepetitionLog.SinceAppend | frontend/js/domain/prime-item.js:56-58 | filtering the log after an append gives the old filter plus the new entry exactly when it reaches the boundary |
| RepetitionLog.CountSinceAppend | frontend/js/domain/prime-item.js:56-81 | logging `now` adds one to each count whose boundary `now` reaches and nothing to the others |
| RepetitionLog.CountSinceAntitone | frontend/js/domain/prime-item.js:77-112 | a later boundary never counts more entries (why today's count is at most the week's) |
| RepetitionLog.CountBetweenIsDifference | frontend/js/domain/prime-item.js:87-97 | the half-open window `[lo, hi)` holds exactly the entries counted from `lo` minus those counted from `hi` |
| RepetitionLog.AdjacentWindows | frontend/js/domain/prime-item.js:118-130 | the windows `[a, b)` and `[b, c)` together count exactly the window `[a, c)` |
| RepetitionLog.Latest | js/domain/review-item.js:106-110 | `Math.max(...ts)` is an entry of the log not below any other; there is none exactly when the log is empty |
| RepetitionLog.Earliest | js/domain/prime-item.js:89-93 | `Math.min(...ts)` is an entry of the log not above any other; there is none exactly when the log is empty |
| RepetitionLog.EarliestNotAfterLatest | js/domain/prime-item.js:89-103 | on a non-empty log the earliest entry is never after the latest |
| RepetitionLog.LatestAppend | js/domain/review-item.js:40-48 | after an append the latest entry is the larger of the new one and the previous latest |
| RepetitionLog.LatestAfterAppend | js/domain/review-item.js:40-48 | logging a `now` no earlier entry exceeds makes `now` the latest entry |
| RepetitionLog.EarliestAfterAppend | js/domain/prime-item.js:38-40 | an append changes the earliest entry of a non-empty log only when the new entry is smaller |
| RepetitionLog.FirstStudiedAfter | js/domain/review-item.js:44-47 | a session sets the first-studied moment to `now` only while it is `null`, and keeps a set one |
| RepetitionLog.FirstStudiedSetOnce | js/domain/review-item.js:44-47 | over any run of sessions a set first-studied moment never changes, and a `null` one becomes the first session's time |
| Sorting.SortDesc | frontend/js/controllers/stats-controller.js:85-87 | a sort with a `key(b) - key(a)` comparator returns a permutation of its input of the same length |
| Sorting.InsertDescSorted | frontend/js/controllers/stats-controller.js:85-87 | inserting into a sequence already in non-increasing key order keeps it in that order |
| Sorting.SortDescSorted | frontend/js/controllers/stats-controller.js:85-87 | the sorted sequence has non-increasing keys from left to right |
| Sorting.SortDescStable | frontend/js/controllers/stats-controller.js:85-87 | `Array.prototype.sort` is stable: elements with equal keys keep their input order |
| Sorting.WithKeyConcat | frontend/js/controllers/stats-controller.js:85-87 | selecting the elements with one key distributes over concatenation |
| Sorting.WithKeyKeepsRankOrder | frontend/js/controllers/stats-controller.js:85-87 | selecting the elements with one key keeps any strictly increasing ranking of them, as it takes a subsequence |
| Sorting.SortDescOfSorted | frontend/js/controllers/stats-controller.js:85-87 | sorting a sequence that is already in order changes nothing |
| Stats.StartMs | frontend/js/controllers/stats-controller.js:52 | the start read from `startedAt ?? started_at`: a present `startedAt` wins, a `null` one gives the epoch, a missing one `NaN` |
| Stats.TodayEntries | frontend/js/controllers/stats-controller.js:51-54 | keeps exactly the entries whose start is readable and falls in `[startMs, endMs)` |
| Stats.TodayEntriesConcat | frontend/js/controllers/stats-controller.js:51-54 | Filtering keeps order and multiplicity: the filter of a concatenation is the concatenation of the filters |
| Stats.TodayEntriesSingleton | frontend/js/controllers/stats-controller.js:51-54 | a single entry is kept exactly when its start is readable and falls in `[startMs, endMs)` |
| Stats.RoundedSeconds | frontend/js/controllers/stats-controller.js:37 | the rounded seconds are within half a second of the millisecond difference |
| Stats.RoundedSecondsIsJsRound | frontend/js/controllers/stats-controller.js:37 | the integer rounding agrees with `Math.round` applied to the exact quotient by 1000 |
| Stats.ComputeDurationSeconds | frontend/js/controllers/stats-controller.js:28-42 | a finite stored duration is returned as it is; otherwise the result is never negative, a non-zero result is the rounded difference of two truthy, readable ends, and a difference of at least half a second gives a positive result |
| Stats.RawTitle | frontend/js/controllers/stats-controller.js:67-69 | the display title is never empty |
| Stats.RawTitleTrimmed | frontend/js/controllers/stats-controller.js:67-69 | the display title is trimmed; it is the trimmed stored title, or "Untitled Task" when the title is missing or blank |
| Stats.NormalizeTitle | frontend/js/controllers/stats-controller.js:24-26 | the normalised title is trimmed and lower-case, and it is empty exactly when the title is missing or blank |
| Stats.GroupKey | frontend/js/controllers/stats-controller.js:70 | a group key is never empty and is already trimmed and lower-case |
| Stats.GroupKeyOfEntry | frontend/js/controllers/stats-controller.js:67-70 | a missing or blank title falls into the "untitled task" group; any other title groups under its normalised form |
| Stats.GroupByTask | frontend/js/controllers/stats-controller.js:56-83 | the loop over what the body reads from each entry (duration, display title, group key) gives the running total and the groups of TaskGroups.TallyOf: their totals and counts (TaskGroups.GroupTotals), sum (TaskGroups.GroupSumIsTotal), first counted titles (TaskGroups.GroupTitlesFirst) and first-seen order (TaskGroups.GroupsInFirstSeenOrder) |
| Stats.ByTask | frontend/js/controllers/stats-controller.js:85-87 | `byTask` holds exactly the groups of the map |
| Stats.ByTaskOrdered | frontend/js/controllers/stats-controller.js:85-87 | `byTask` is ordered by `totalSeconds`, most first, and groups with equal time keep their order in the map |
| Stats.ByTaskTiesFirstSeen | frontend/js/controllers/stats-controller.js:61-87 | in `byTask`, groups with equal time stand in the order their keys were first counted among the entries |
| Stats.SumPrimeCounts | frontend/js/controllers/stats-controller.js:90-108 | the loop's five sums are the sums of the per-item count getters over all prime items |
| Stats.PrimeSumsNest | frontend/js/controllers/stats-controller.js:96-108 | without server-supplied counts, today's sum is at most this week's, and yesterday's plus today's is at most the total |
| Stats.Refresh | frontend/js/controllers/stats-controller.js:44-108 | `refresh` counts today's entries, sums their durations, groups them and sorts the groups, and sums the prime counts |
| Stats.SummaryTotalIsSumOfTasks | frontend/js/controllers/stats-controller.js:65-87 | the page's total seconds equal the sum of the listed per-task totals, before and after sorting |
| TaskGroups.FindIn | frontend/js/controllers/stats-controller.js:72 | the position it returns holds the key, and -1 means none of the first `n` groups has it |
| TaskGroups.FindGroup | frontend/js/controllers/stats-controller.js:72 | `groups.get(key)`: a group with that key, or -1 exactly when no group has it |
| TaskGroups.Accumulate | frontend/js/controllers/stats-controller.js:61-83 | the loop leaves the running total and the groups that its specification gives after all entries |
| TaskGroups.SumToUpdate | frontend/js/controllers/stats-controller.js:80-81 | growing one group changes the sum of group totals by exactly the change of that group |
| TaskGroups.SumToAppend | frontend/js/controllers/stats-controller.js:74-78 | a new group leaves the sum over the earlier groups alone |
| TaskGroups.GroupKeysUnique | frontend/js/controllers/stats-controller.js:72-82 | no key is stored in two groups |
| TaskGroups.GroupKeysPresent | frontend/js/controllers/stats-controller.js:63-82 | a key has a group exactly when some entry with a non-zero duration has that key |
| TaskGroups.KeyTotalOfAbsent | frontend/js/controllers/stats-controller.js:63 | a key that no counted entry has collects no seconds |
| TaskGroups.GroupTotals | frontend/js/controllers/stats-controller.js:72-82 | each group holds the sum and the number of the non-zero durations of the entries with its key |
| TaskGroups.SkippedEntryStep | frontend/js/controllers/stats-controller.js:63 | an entry with zero duration changes no group and no count |
| TaskGroups.NewGroupStep | frontend/js/controllers/stats-controller.js:73-78 | the first counted entry with a key starts a group holding exactly that entry |
| TaskGroups.GrownGroupStep | frontend/js/controllers/stats-controller.js:79-82 | a later counted entry with a key grows that group and no other |
| TaskGroups.FirstCounted | frontend/js/controllers/stats-controller.js:61-63 | the position it gives holds a counted entry with the key, and -1 or a position within the entries seen |
| TaskGroups.FirstCountedIsFirst | frontend/js/controllers/stats-controller.js:61-63 | no counted entry with the key comes before that position, and -1 means no counted entry has the key |
| TaskGroups.FirstCountedIffCounted | frontend/js/controllers/stats-controller.js:61-82 | a key has a first counted entry exactly when some counted entry has it |
| TaskGroups.GroupTitlesFirst | frontend/js/controllers/stats-controller.js:72-82 | each group's title is the raw title of the first counted entry with its key, since only a new key's `groups.set` writes a title |
| TaskGroups.GroupsInFirstSeenOrder | frontend/js/controllers/stats-controller.js:72-82 | the groups stand in the order their keys were first counted, the insertion order that `groups.values()` yields |
| TaskGroups.GroupSumIsTotal | frontend/js/controllers/stats-controller.js:65-82 | `totalSeconds` is the sum of the group totals |
| TaskGroups.SumTotalsOfPermutation | frontend/js/controllers/stats-controller.js:85-87 | reordering the groups does not change the sum of their totals |
| ListEntries.TodayWindow | frontend/js/controllers/list-entries-controller.js:85-93 | an instant is in the window exactly when it is at or after today's local midnight and before the next one |
| ListEntries.TodayEntries | frontend/js/controllers/list-entries-controller.js:182-185 | keeps exactly the entries whose start lies in `[startMs, endMs)` |
| ListEntries.TodayEntriesConcat | frontend/js/controllers/list-entries-controller.js:182-185 | Filtering keeps order and multiplicity: the filter of a concatenation is the concatenation of the filters |
| ListEntries.TodayEntriesSingleton | frontend/js/controllers/list-entries-controller.js:182-185 | a single entry is kept exactly when its start lies in the window |
| ListEntries.TodayMoments | frontend/js/controllers/list-entries-controller.js:187-189 | keeps exactly the moments whose time lies in `[startMs, endMs)` |
| ListEntries.TodayMomentsConcat | frontend/js/controllers/list-entries-controller.js:187-189 | Filtering keeps order and multiplicity: the filter of a concatenation is the concatenation of the filters |
| ListEntries.TodayMomentsSingleton | frontend/js/controllers/list-entries-controller.js:187-189 | a single moment is kept exactly when its time lies in the window |
| ListEntries.LastIndex | frontend/js/controllers/list-entries-controller.js:194-195 | the position of the last row with that id, or -1 exactly when no row has it |
| ListEntries.IndexById | frontend/js/controllers/list-entries-controller.js:194-195 | `new Map(rows.map(...))` has exactly the ids of the rows as keys, each mapped to the last row with that id |
| ListEntries.Enrich | frontend/js/controllers/list-entries-controller.js:199-211 | an entry keeps its fields; category and project id come from its task (null without one); project name and colour are set only when that task's project id is known, and then come from that project |
| ListEntries.Feed | frontend/js/controllers/list-entries-controller.js:179-229 | the feed is a permutation of today's entries, each enriched with its task's category and project (`x \|\| null` for each), followed by today's moments, with exactly that many rows |
| ListEntries.FeedKeyOrder | frontend/js/controllers/list-entries-controller.js:224-229 | the integer key orders rows as the comparator does: later time first, then a moment ahead of an entry |
| ListEntries.FeedSorted | frontend/js/controllers/list-entries-controller.js:224-229 | the feed is newest first, and at the same time no entry stands before a moment |
| ListEntries.FeedInWindow | frontend/js/controllers/list-entries-controller.js:182-223 | every row is a stored entry or moment of today, with its own time |
| ListEntries.FeedStable | frontend/js/controllers/list-entries-controller.js:224-229 | rows of the same kind at the same time keep their merged order |
| Workspace.TaskTimeIsSum | js/controllers/workspace-controller.js:69-78 | the per-task time map has a key for exactly the tasks with an entry, and each value is the sum of that task's durations, a missing duration counting as 0 (`\|\| 0`) |
| Workspace.CalculateTaskTime | js/controllers/workspace-controller.js:69-78 | the loop builds the map of its specification: keys are exactly the tasks with an entry, values the sums of their durations |
| Workspace.Unstarted | js/controllers/workspace-controller.js:44 | keeps exactly the tasks whose id is not a key of the per-task time map |
| Workspace.UnstartedConcat | js/controllers/workspace-controller.js:44 | Filtering keeps order and multiplicity: the filter of a concatenation is the concatenation of the filters |
| Workspace.UnstartedSingleton | js/controllers/workspace-controller.js:44 | a single task is kept exactly when its id is not a key of the per-task time map |
| Workspace.ScheduledTasks | js/controllers/workspace-controller.js:41-44 | the scheduled tasks are exactly the tasks that have no time entry |
| Workspace.ProjectTasks | js/controllers/workspace-controller.js:54 | the filter keeps at most the tasks it sees |
| Workspace.EntriesOf | js/controllers/workspace-controller.js:57 | the filter keeps at most the entries it sees |
| Workspace.ProjectTasksMembers | js/controllers/workspace-controller.js:54 | a project's tasks are exactly its non-archived tasks |
| Workspace.EntriesOfMembers | js/controllers/workspace-controller.js:55-57 | a project's entries are exactly the entries of its tasks |
| Workspace.TotalOfEntriesOf | js/controllers/workspace-controller.js:57-58 | summing the filtered entries equals summing the durations of the entries that pass the filter |
| Workspace.ProjectStatMeaning | js/controllers/workspace-controller.js:53-63 | `taskCount` counts the project's non-archived tasks, and `totalSeconds` sums the durations of those tasks' entries only |
| Workspace.CalculateProjectStats | js/controllers/workspace-controller.js:50-67 | the map has one key per project id, and each holds that project's task count and total |
| Workspace.SumInDisjointUnion | js/controllers/workspace-controller.js:57-58 | summing over two disjoint sets of tasks is the sum of summing over each |
| Workspace.SumInIsSumOverIds | js/controllers/workspace-controller.js:69-78 | summing the entries of a set of tasks equals adding up the per-task time map over those ids, a missing id counting as 0 |
| Workspace.ProjectTotalFromTaskTime | js/controllers/workspace-controller.js:50-78 | the two maps agree: a project's `totalSeconds` is the per-task time map summed over its non-archived tasks |
| Workspace.Unassign | js/controllers/workspace-controller.js:109-116 | the list of tasks keeps its length |
| Workspace.UnassignMeaning | js/controllers/workspace-controller.js:109-116 | afterwards no task belongs to the deleted project; each task keeps its id, archived flag and position; tasks of other projects are untouched; the deleted project's tasks have no project |
| Workspace.RemoveProject | js/controllers/workspace-controller.js:120 | keeps exactly the projects with another id |
| Workspace.RemoveProjectConcat | js/controllers/workspace-controller.js:120 | Filtering keeps order and multiplicity: the filter of a concatenation is the concatenation of the filters |
| Workspace.RemoveProjectSingleton | js/controllers/workspace-controller.js:120 | a single project is kept exactly when its id is another |
| Workspace.RemoveTask | js/controllers/workspace-controller.js:172 | keeps exactly the tasks with another id |
| Workspace.RemoveTaskConcat | js/controllers/workspace-controller.js:172 | Filtering keeps order and multiplicity: the filter of a concatenation is the concatenation of the filters |
| Workspace.RemoveTaskSingleton | js/controllers/workspace-controller.js:172 | a single task is kept exactly when its id is another |
| Workspace.ProjectTasksAfterUnassign | js/controllers/workspace-controller.js:109-116 | unassigning one project leaves the list of tasks of every other project the same |
| Workspace.OtherProjectsUnchanged | js/controllers/workspace-controller.js:105-123 | deleting a project changes the stats of no other project |
| Workspace.DeletedProjectIsEmpty | js/controllers/workspace-controller.js:109-116 | after the delete, no task is in the deleted project |
| Workspace.WorkspaceController.HandleDeleteProject | js/controllers/workspace-controller.js:105-123 | once confirmed, the project's tasks are unassigned and that project alone is removed; declined, nothing changes; time entries are never touched |
| Workspace.WorkspaceController.HandleDeleteTask | js/controllers/workspace-controller.js:169-175 | once confirmed, that task is dropped and its time entries are kept; declined, nothing changes |
| Workspace.WorkspaceController.constructor | js/controllers/workspace-controller.js:13-38 | a controller holding the given projects, tasks and time entries |
| Categories.Find | js/utils/category-manager.js:40 | the position it returns holds the key, and -1 means no entry has it |
| Categories.FindSameKeys | js/utils/category-manager.js:40-41 | changing counts in place does not move any key |
| Categories.FindUnique | js/utils/category-manager.js:40 | in a map whose keys are unique, a key is found at its own position |
| Categories.BumpCount | js/utils/category-manager.js:40-41 | `set(k, (get(k) || 0) + 1)` keeps keys unique and adds one to the count of `k` alone |
| Categories.CountsWellFormed | js/utils/category-manager.js:34-44 | after a load, keys are unique, trimmed and non-empty |
| Categories.CountsAreOccurrences | js/utils/category-manager.js:34-44 | after a load, each key's count is the number of items whose trimmed category it is |
| Categories.CountsOfPrefix | js/utils/category-manager.js:37-43 | a later item does not change the counts of the earlier ones |
| Categories.IncrementIsLoadingOneMore | js/utils/category-manager.js:167-173 | incrementing a category counts it exactly as loading one more item with that category would |
| Categories.Matching | js/utils/category-manager.js:57-61 | keeps exactly the entries whose lower-cased name contains the term |
| Categories.MatchingConcat | js/utils/category-manager.js:57-61 | Filtering keeps order and multiplicity: the filter of a concatenation is the concatenation of the filters |
| Categories.MatchingSingleton | js/utils/category-manager.js:57-61 | a single entry is kept exactly when its lower-cased name contains the term |
| Categories.MatchingSorted | js/utils/category-manager.js:53-61 | filtering a list sorted by count keeps it sorted |
| Categories.MatchingWithKey | js/utils/category-manager.js:53-61 | keeping one count and keeping the matching entries commute |
| Categories.FilteredCategoriesMeaning | js/utils/category-manager.js:49-64 | the list is sorted by count, most used first, and holds exactly the entries matching the lower-cased, trimmed term; a blank term keeps every entry; for every term, the entries with a given count are the matching entries with that count in insertion order |
| Categories.DatasetCategory | js/utils/category-manager.js:126 | the `data-category` attribute reads back as the category up to its first `"`: a prefix of it with no `"`, the whole of it when it has none |
| Categories.CategoryManager.constructor | js/utils/category-manager.js:7-15 | a new manager has no counts, no rendered items and no selection |
| Categories.CategoryManager.LoadCategories | js/utils/category-manager.js:34-44 | the map is cleared, then each trimmed non-blank category is counted once per item |
| Categories.CategoryManager.HideDropdown | js/utils/category-manager.js:159-162 | hiding resets the selection to -1 |
| Categories.CategoryManager.HandleInput | js/utils/category-manager.js:69-73 | the selection is cleared; an empty filtered list hides the dropdown, any other replaces the rendered items and shows it |
| Categories.CategoryManager.SelectCategory | js/utils/category-manager.js:148-154 | the input shows the chosen category, the dropdown is hidden, the selection reset, and the choice reported |
| Categories.CategoryManager.HandleKeydown | js/utils/category-manager.js:78-99 | the arrows keep the selection within `[-1, items.length - 1]` and leave the dropdown shown or hidden as it was; Enter on a selected item picks what its `data-category` attribute reads back as; Escape hides; other keys change nothing |
| Categories.CategoryManager.IncrementCategory | js/utils/category-manager.js:167-173 | blank input changes nothing; otherwise the trimmed key's count goes up by one and no other count changes |
| PrimeImport.VisiblePrimeItems | frontend/js/controllers/prime-controller.js:61-64 | every shown item comes from the list and is archived (a truthy `archived`) exactly when `showArchived` is set, and every such item is shown |
| PrimeImport.VisiblePrimeItemsConcat | frontend/js/controllers/prime-controller.js:61-64 | Filtering keeps order and multiplicity: the filter of a concatenation is the concatenation of the filters |
| PrimeImport.VisiblePrimeItemsSingleton | frontend/js/controllers/prime-controller.js:61-64 | a single item is shown exactly when its truthy-archived test equals `showArchived`, so a `null` flag counts as not archived |
| PrimeImport.HeaderCategoryClean | frontend/js/controllers/prime-controller.js:472-479 | a category read from the header line is trimmed and not empty |
| PrimeImport.LineTitle | frontend/js/controllers/prime-controller.js:483-490 | one line yields at most one title |
| PrimeImport.TitlesOfConcat | frontend/js/controllers/prime-controller.js:482-491 | titles keep the order of their lines: the titles of two runs of lines, one after the other |
| PrimeImport.LineTitleClean | frontend/js/controllers/prime-controller.js:483-490 | a line's title is trimmed and not empty |
| PrimeImport.TitlesClean | frontend/js/controllers/prime-controller.js:482-491 | every title read from a file is trimmed and not empty |
| PrimeImport.HeaderIsNoTitle | frontend/js/controllers/prime-controller.js:472-484 | a category header line is never a `####` line, so skipping it drops no title |
| PrimeImport.SkipHeader | frontend/js/controllers/prime-controller.js:477-482 | when the first line is a header, reading from the second line gives the same titles as reading every line |
| PrimeImport.TitlesStep | frontend/js/controllers/prime-controller.js:482-491 | one more line read by the loop adds that line's title, if it has one |
| PrimeImport.ParseImportFile | frontend/js/controllers/prime-controller.js:465-494 | the category is the header's (else ""), and the items are the titles of the `####` lines after it, in order, which are the titles of all lines |
| PrimeImport.TitleLines | frontend/js/controllers/prime-controller.js:484-486 | one `#### ` line per title |
| PrimeImport.TitleLineReadsBack | frontend/js/controllers/prime-controller.js:483-490 | a `#### ` line reads back as its trimmed, non-empty title |
| PrimeImport.TitlesOfTitleLines | frontend/js/controllers/prime-controller.js:482-491 | a run of title lines reads back as its titles, in order |
| PrimeImport.HeaderReadsBack | frontend/js/controllers/prime-controller.js:472-479 | a `category: X` line reads back as category X |
| PrimeImport.TitleLineIsNoHeader | frontend/js/controllers/prime-controller.js:472-479 | a `#### ` line is never read as a category header |
| PrimeImport.BodyReadsBack | frontend/js/controllers/prime-controller.js:466 | the title lines joined by newlines split back into themselves |
| PrimeImport.HeaderedExportLines | frontend/js/controllers/prime-controller.js:466 | a file with a header splits into the header line followed by the title lines |
| PrimeImport.ImportOfExport | frontend/js/controllers/prime-controller.js:465-494 | importing a file written with an optional header and one `#### ` line per title gives back the category and the titles, in order |
| StudyCipher.Boundary | frontend/js/views/study-view.js:387 | the next cut position lies just past a stop character (`.`, `!` or `?`) and no earlier position qualifies |
| StudyCipher.WhitespaceRun | frontend/js/views/study-view.js:387 | the run `\s*` consumes is all whitespace and is followed by a non-whitespace character or the end |
| StudyCipher.SentencesEndWithStop | frontend/js/views/study-view.js:387 | every sentence but the last is non-empty and ends with the stop character it was cut after |
| StudyCipher.WordEnd | frontend/js/views/study-view.js:394 | the end of a maximal run of word characters |
| StudyCipher.TokenizeGivesTokens | frontend/js/views/study-view.js:394 | every token is a whole word or one character that is neither a word character nor whitespace |
| StudyCipher.TokensSpellText | frontend/js/views/study-view.js:394 | tokenising drops whitespace and nothing else: the tokens spell out the sentence's non-blank characters |
| StudyCipher.NonBlankHasTokens | frontend/js/views/study-view.js:391-394 | a sentence that is not blank has at least one token |
| StudyCipher.ProcessedOf | frontend/js/views/study-view.js:395-409 | one shown token per token |
| StudyCipher.ProcessedMeaning | frontend/js/views/study-view.js:398-409 | each shown token is its token ciphered with the running word count of its sentence: punctuation kept, every 4th word kept whole, other words cut to their first character |
| StudyCipher.CipherKeepsInitial | frontend/js/views/study-view.js:399-408 | a shown token starts as its token does and is the token itself or one character; a word stays whole exactly on a multiple of 4 (or when it is one character) |
| StudyCipher.LinesStep | frontend/js/views/study-view.js:390-412 | one more sentence adds its line unless it is blank |
| StudyCipher.CipherTokens | frontend/js/views/study-view.js:394-409 | the inner loop computes the shown tokens of its specification, the word counter starting at 0 for each sentence |
| StudyCipher.CipherLines | frontend/js/views/study-view.js:390-412 | the outer loop gives one line per non-blank sentence, in order, tokens joined by " " |
| StudyCipher.CipherTextRaw | frontend/js/views/study-view.js:383-415 | a missing, empty or all-whitespace text gives ""; any other gives the sentence lines joined by "\n" |
| StudyCipher.TokenHasNoSpace | frontend/js/views/study-view.js:394 | a token holds no space and no newline |
| StudyCipher.CipherLineReadsBack | frontend/js/views/study-view.js:394-411 | a non-blank sentence's line splits on " " into exactly its shown tokens, one per token, each starting with that token's first character |
| StudyCipher.Sentences | frontend/js/views/study-view.js:387 | splitting after each `.`, `!` or `?` and its following whitespace gives at least one piece |
| Favorites.MergeLaws | frontend/js/data/favorites-storage.js:82 | spreading the same updates twice is the same as spreading them once, and no updates change nothing |
| Favorites.GetDefaults | frontend/js/data/favorites-storage.js:105-126 | a known type's built-in list has that type, distinct ids and orders 0, 1, ...; any other type gets `[]` |
| Favorites.FirstIndex | frontend/js/data/favorites-storage.js:80 | `findIndex`: the first position with that id, or -1 exactly when no favourite has it |
| Favorites.Without | frontend/js/data/favorites-storage.js:71 | keeps exactly the favourites with another id |
| Favorites.WithoutConcat | frontend/js/data/favorites-storage.js:71 | Filtering keeps order and multiplicity: the filter of a concatenation is the concatenation of the filters |
| Favorites.WithoutSingleton | frontend/js/data/favorites-storage.js:71 | a single favourite is kept exactly when its id is another |
| Favorites.WithoutAppended | frontend/js/data/favorites-storage.js:51-73 | removing a just-added favourite with a new id gives back the list as it was, in order |
| Favorites.AddKeepsPositions | frontend/js/data/favorites-storage.js:59-61 | when orders are positions, an add with `order: favorites.length` keeps them positions |
| Favorites.SetOrder | frontend/js/data/favorites-storage.js:95-96 | giving one favourite an order keeps the list's length |
| Favorites.AssignOrders | frontend/js/data/favorites-storage.js:94-97 | the loop keeps the list's length |
| Favorites.LastPos | frontend/js/data/favorites-storage.js:94-97 | the last position below `m` at which an id is listed, or -1 exactly when it is not listed there |
| Favorites.AssignOrdersMeaning | frontend/js/data/favorites-storage.js:94-97 | each favourite keeps everything but its order; the first favourite with a listed id gets the last position its id is listed at |
| Favorites.Reordered | frontend/js/data/favorites-storage.js:92-100 | the saved list is a permutation of the list with the orders assigned |
| Favorites.ReorderedSorted | frontend/js/data/favorites-storage.js:98 | the saved list is in non-decreasing order, and favourites with equal orders keep their relative positions |
| Favorites.PermutationKeepsIdsDistinct | frontend/js/data/favorites-storage.js:98 | sorting a list with distinct ids keeps them distinct |
| Favorites.OrdersArePositions | frontend/js/data/favorites-storage.js:98 | strictly increasing orders in `[0, n)` over `n` favourites are exactly 0, ..., n - 1 |
| Favorites.AssignedPositions | frontend/js/data/favorites-storage.js:94-97 | when the ids list every favourite once, each gets the position of its id as its order |
| Favorites.SortedFollowsIds | frontend/js/data/favorites-storage.js:98 | a sorted list whose orders are the positions of its ids is in the listed order |
| Favorites.ReorderFollowsIds | frontend/js/data/favorites-storage.js:92-100 | when the ids list every favourite exactly once, the saved list is the favourites in the listed order, each with its position as its order |
| Favorites.FavoritesStore.constructor | frontend/js/data/favorites-storage.js:25-34 | the store starts with the given saved lists |
| Favorites.FavoritesStore.AddFavorite | frontend/js/data/favorites-storage.js:51-64 | appends one favourite with id `Date.now()`, the given type, label and data and the old length as its order; only that type's list changes |
| Favorites.FavoritesStore.RemoveFavorite | frontend/js/data/favorites-storage.js:69-73 | saves the list without the favourites with that id, the others in their order (Favorites.WithoutConcat); other types are untouched |
| Favorites.FavoritesStore.UpdateFavorite | frontend/js/data/favorites-storage.js:78-87 | merges the update into the first match, saves and returns it; with no match nothing is saved and `null` is returned |
| Favorites.FavoritesStore.ReorderFavorites | frontend/js/data/favorites-storage.js:92-100 | the loop gives each listed favourite its position, then the list is sorted by order and saved |
| JsTimer.SecondsBetween | js/state/timer.js:48 | `Math.floor((now - start) / 1000)`: the whole seconds in the interval, rounded down for a backward clock too, and never negative exactly when the clock went forward |
| JsTimer.SecondsBetweenMonotone | js/state/timer.js:48 | a later clock reading never gives fewer seconds |
| JsTimer.Timer.constructor | js/state/timer.js:8-16 | a new timer is stopped, not paused, with nothing banked |
| JsTimer.Timer.GetElapsedSeconds | js/state/timer.js:44-49 | stopped, paused or without a start, the banked seconds; running, the banked seconds plus the floor of the milliseconds since the start over 1000 |
| JsTimer.Timer.GetSnapshot | js/state/timer.js:98-106 | the snapshot reports both flags, the start and pause-start times and the elapsed seconds at `now` |
| JsTimer.Timer.Start | js/state/timer.js:51-59 | a no-op while running; otherwise running, not paused, started at `now`, elapsed 0; `isPaused` implies `isRunning` afterwards |
| JsTimer.Timer.Pause | js/state/timer.js:61-71 | effective only when running and not paused: banks `floor((now - start) / 1000)`, keeping the elapsed value at `now`, and clears the start; the invariant is kept |
| JsTimer.Timer.Resume | js/state/timer.js:73-79 | effective only when paused: runs from `now` with the pause cleared; the banked seconds and the elapsed value at `now` are unchanged |
| JsTimer.Timer.Reset | js/state/timer.js:88-96 | back to the stopped initial state |
| JsTimer.Timer.Stop | js/state/timer.js:81-86 | returns 0 when not running; otherwise returns the elapsed seconds at `now` and leaves the timer reset |
| JsTimer.ElapsedMonotone | js/state/timer.js:44-49 | elapsed time never decreases as the clock moves forward |
| JsTimer.PausedIsFrozen | js/state/timer.js:44-49 | while paused, the elapsed value is the banked value at every clock reading |
| FrontendHabit.Defaulted | frontend/js/domain/habit.js:14-17 | a destructuring default replaces `undefined` only; `null` is kept |
| FrontendHabit.Construct | frontend/js/domain/habit.js:11-40 | the constructor throws exactly for a `null` `counts`; targets default to 0 and `isActive` to true only when `undefined`; each missing count is 0; a missing `createdAt` is now and a `null` one the epoch; the name is kept as given |
| FrontendHabit.FromJsonOfToJson | frontend/js/domain/habit.js:103-125 | for every habit `h`, `fromJSON(h.toJSON())` succeeds with `h`'s own id, name, targets, counts, `isActive` and `createdAt` |
| FrontendHabit.Habit.Create | frontend/js/domain/habit.js:11-40 | `new Habit(data)` is a fresh habit with the constructed fields, or the TypeError it throws |
| FrontendHabit.Habit.Activate | frontend/js/domain/habit.js:46-48 | the habit is active afterwards |
| FrontendHabit.Habit.Deactivate | frontend/js/domain/habit.js:50-52 | the habit is inactive afterwards |
| FrontendHabit.Habit.Increment | frontend/js/domain/habit.js:58-66 | an active habit adds the amount to its daily, weekly and monthly counts; an inactive one changes nothing |
| FrontendHabit.Habit.IncrementDefault | frontend/js/domain/habit.js:58-66 | with no amount given, an active habit counts one more in each period; an inactive one changes nothing |
| FrontendHabit.Habit.ResetDaily | frontend/js/domain/habit.js:68-70 | zeroes the daily counter and no other |
| FrontendHabit.Habit.ResetWeekly | frontend/js/domain/habit.js:72-74 | zeroes the weekly counter and no other |
| FrontendHabit.Habit.ResetMonthly | frontend/js/domain/habit.js:76-78 | zeroes the monthly counter and no other |
| FrontendHabit.Habit.IsDailyComplete | frontend/js/domain/habit.js:84-87 | complete exactly when the daily target is positive and the count reaches it |
| FrontendHabit.Habit.IsWeeklyComplete | frontend/js/domain/habit.js:89-92 | complete exactly when the weekly target is positive and the count reaches it |
| FrontendHabit.Habit.IsMonthlyComplete | frontend/js/domain/habit.js:94-97 | complete exactly when the monthly target is positive and the count reaches it |
| FrontendHabit.Habit.ToJson | frontend/js/domain/habit.js:103-112 | the serialised form is the habit's whole record: id, name, targets, counts, `isActive` and `createdAt` |
| FrontendHabit.ZeroTargetNeverComplete | frontend/js/domain/habit.js:84-97 | a zero or `null` target is never complete, however large the count |
| FrontendHabit.CompleteIsUpwardClosed | frontend/js/domain/habit.js:84-97 | a met target stays met as the count grows |
| FrontendHabit.Habit.constructor | frontend/js/domain/habit.js:11-40 | the new object holds exactly the given fields |
| FrontendTimeEntry.Construct | frontend/js/domain/time-entry.js:17-43 | a falsy `taskId`, then a falsy `startedAt`, is rejected with its message, and a `null` title cannot be trimmed; otherwise the entry takes the given fields with the title trimmed, defaults applied only to `undefined`, a missing id replaced by a fresh one and `breaks` defaulting to `[]` |
| FrontendTimeEntry.TimeEntry.constructor | frontend/js/domain/time-entry.js:34-42 | the new object holds exactly the given fields |
| FrontendTimeEntry.TimeEntry.Create | frontend/js/domain/time-entry.js:17-43 | `new TimeEntry(data)` is a fresh entry with the constructed fields, or the error the constructor throws |
| FrontendTimeEntry.TimeEntry.Finalize | frontend/js/domain/time-entry.js:58-71 | refuses an already finalised entry, a falsy end time and a missing or negative duration, in that order, leaving the entry unchanged; succeeds exactly otherwise, recording both values, after which the entry is no longer active |
| FrontendTimeEntry.TimeEntry.AddNotes | frontend/js/domain/time-entry.js:76-78 | the notes become the given value |
| FrontendTimeEntry.TimeEntry.AddBreak | frontend/js/domain/time-entry.js:83-89 | a present record is appended to the breaks; `null` and `undefined` leave them unchanged |
| FrontendTimeEntry.FormattedDurationFields | frontend/js/domain/time-entry.js:94-101 | the formatted duration of a non-negative duration has three colon-separated digit fields that recombine to it, with minutes and seconds below 60 |
| Clock.JsRem | js/controllers/countdown-controller.js:320-321 | JavaScript `%` with a positive divisor: the ordinary remainder for a non-negative dividend, and a remainder with the dividend's sign otherwise |
| Clock.SecondsToHMS | js/controllers/countdown-controller.js:318-323 | for a non-negative total, the hours, minutes and seconds recombine to it, with minutes and seconds in 0..59 |
| Clock.NegativeDoesNotRecombine | js/controllers/countdown-controller.js:318-323 | a negative total (-5) is split into -1 hours, -1 minutes and -5 seconds, which do not recombine to it |
| Clock.Split | js/controllers/countdown-controller.js:372-373 | `split` on one character gives at least one piece, and no piece contains the separator |
| Clock.SplitNoSep | js/controllers/countdown-controller.js:372-373 | a string without the separator splits into itself alone |
| Clock.SplitCons | js/controllers/countdown-controller.js:372-373 | splitting `a + sep + b`, where `a` has no separator, gives `a` followed by the pieces of `b` |
| Clock.SplitJoin | js/controllers/countdown-controller.js:372-373 | splitting the join of separator-free pieces gives the pieces back |
| Clock.DigitsHaveNoColon | js/utils/time.js:11-12 | a numeral contains no `:` |
| Clock.SplitRenderHMS | js/utils/time.js:11-12 | splitting an `HH:MM:SS` rendering of non-negative parts on `:` gives the three padded numerals |
| Clock.RenderHMSReadsBack | js/utils/time.js:8-12 | the `HH:MM:SS` rendering of a non-negative total has three digit fields, the first at least two digits long and the other two exactly two; minutes and seconds are below 60 and the fields recombine to the total |
| Clock.NatToStringShort | js/controllers/countdown-controller.js:367-369 | a number below 60 has at most two digits, so padding it to two gives exactly two |
| TimeUtils.JsRound | js/utils/time.js:17 | `Math.round` gives the integer within half a unit of its argument, halves rounded up |
| TimeUtils.WholeSeconds | js/utils/time.js:7 | the clamped whole seconds: the floor of a non-negative argument, and 0 for anything below one second, negative or missing |
| TimeUtils.FormatTimeFields | js/utils/time.js:6-13 | `formatTime` gives three digit fields, with minutes and seconds below 60, that recombine to the clamped whole seconds |
| TimeUtils.FormatTimeNegative | js/utils/time.js:7 | a negative argument formats as `00:00:00` |
| TimeUtils.RoundedSeconds | js/utils/time.js:17 | the rounded seconds, within half a second of a non-negative argument and 0 for a negative one |
| TimeUtils.LabelOf | js/utils/time.js:16-23 | the label is in seconds exactly when the rounded seconds are below 60, and then reports them; otherwise it reports at least one minute, within half a minute of the rounded seconds |
| TimeUtils.LabelSingularIffOne | js/utils/time.js:19-22 | the unit word ends in `s` exactly when the reported number is not 1 |
| TimeUtils.DurationLabelNegative | js/utils/time.js:17-19 | a negative argument is labelled `0 seconds` |
| Countdown.KeepDigits | js/controllers/countdown-controller.js:362 | removing the non-digits leaves only digits, no longer than the input, and leaves an all-digit string unchanged |
| Countdown.KeepDigitsConcat | js/controllers/countdown-controller.js:362 | Filtering keeps order and multiplicity: the filter of a concatenation is the concatenation of the filters |
| Countdown.KeepDigitsSingleton | js/controllers/countdown-controller.js:362 | a single character is kept exactly when it is a digit, so the result is the input's digits in their order |
| Countdown.ParseClockNumber | js/controllers/countdown-controller.js:361-365 | an input without digits is 0; otherwise the number its digits spell |
| Countdown.CommittedDuration | js/controllers/countdown-controller.js:339-342 | the committed duration is hours times 3600 plus minutes times 60 plus seconds as parsed; the outer `Math.max(0, …)` never applies |
| Countdown.ParsePadded | js/controllers/countdown-controller.js:361-369 | a zero-padded numeral parses back to its number |
| Countdown.CommitOfRendered | js/controllers/countdown-controller.js:325-342 | committing the inputs that `updateClockInputs` wrote for a non-negative total gives that total back |
| Countdown.CountdownClock.constructor | js/controllers/countdown-controller.js:13-17 | the controller's `state` for any target (the page starts at 0) with no selected favourite, and empty inputs until `updateClockInputs` (line 43) fills them |
| Countdown.CountdownClock.UpdateClockInputs | js/controllers/countdown-controller.js:325-330 | each input shows its part of the total, padded to two digits |
| Countdown.CountdownClock.CommitClockInputs | js/controllers/countdown-controller.js:338-355 | the target becomes the non-negative duration the old inputs spell, the selected favourite is cleared, and the inputs become the two-digit padded hours, minutes and seconds of the new target, which makes a second commit change nothing |
| FrontendPrimeItem.Construct | frontend/js/domain/prime-item.js:23-51 | the constructor succeeds exactly when the title is present and the description, category and timestamp list are not `null`; defaults replace `undefined` only; title and description are trimmed and the category trimmed and lower-cased, each left in normal form; the server counts and first/last values are kept when given; a missing `archived` is `false`, and a `null` one stays `null` |
| FrontendPrimeItem.PrimeItem.constructor | frontend/js/domain/prime-item.js:23-51 | the new object holds exactly the given fields |
| FrontendPrimeItem.PrimeItem.Create | frontend/js/domain/prime-item.js:23-51 | `new PrimeItem(data)` is a fresh item with the constructed fields in normal form, or the TypeError it throws |
| FrontendPrimeItem.PrimeItem.LogPrime | frontend/js/domain/prime-item.js:56-58 | appends the current time to the log and nothing else; without a server total the total grows by one |
| FrontendPrimeItem.PrimeItem.GetTotalCount | frontend/js/domain/prime-item.js:63-68 | the server's total when it supplied one, else the length of the log |
| FrontendPrimeItem.PrimeItem.GetTodayCount | frontend/js/domain/prime-item.js:73-82 | the server's value when it supplied one, else the logged entries at or after local midnight, at most the whole log |
| FrontendPrimeItem.PrimeItem.GetYesterdayCount | frontend/js/domain/prime-item.js:87-97 | the logged entries from yesterday's midnight up to, not including, today's, at most the whole log |
| FrontendPrimeItem.PrimeItem.GetThisWeekCount | frontend/js/domain/prime-item.js:102-113 | the server's value when it supplied one, else the entries since the start of the week |
| FrontendPrimeItem.PrimeItem.GetLastWeekCount | frontend/js/domain/prime-item.js:118-130 | the entries from the start of last week up to, not including, the start of this week |
| FrontendPrimeItem.PrimeItem.GetThisMonthCount | frontend/js/domain/prime-item.js:135-145 | the server's value when it supplied one, else the entries since the first of the month |
| FrontendPrimeItem.PrimeItem.GetFirstPrimeDate | frontend/js/domain/prime-item.js:151-158 | a non-empty log gives its earliest entry, which is in the log and not after any other; an empty one gives a truthy `firstPrimedAt`, else `null` |
| FrontendPrimeItem.PrimeItem.GetLastPrimeDate | frontend/js/domain/prime-item.js:164-171 | a non-empty log gives its latest entry, which is in the log and not before any other; an empty one gives a truthy `lastPrimedAt`, else `null` |
| FrontendPrimeItem.PrimeItem.Archive | frontend/js/domain/prime-item.js:220-222 | the item is archived afterwards, and only that flag changes |
| FrontendPrimeItem.PrimeItem.Restore | frontend/js/domain/prime-item.js:227-229 | the item is not archived afterwards, and only that flag changes |
| FrontendPrimeItem.PrimeItem.Update | frontend/js/domain/prime-item.js:234-238 | each provided property replaces its field in normal form, title and description trimmed and category trimmed and lower-cased; an absent one leaves its field as it was; the fields stay in normal form |
| FrontendPrimeItem.PrimeItem.ToJson | frontend/js/domain/prime-item.js:243-253 | the serialised form carries the id, title, description, category, log, archived flag and creation time, and nothing else |
| FrontendPrimeItem.TodayNotAboveWeek | frontend/js/domain/prime-item.js:73-113 | without server values, today's count is at most this week's when the week starts no later than today |
| FrontendPrimeItem.YesterdayThenToday | frontend/js/domain/prime-item.js:73-97 | yesterday's count plus today's is the number of entries since yesterday's midnight |
| FrontendPrimeItem.LastWeekThenThisWeek | frontend/js/domain/prime-item.js:102-130 | last week's count plus this week's is the number of entries since the start of last week |
| FrontendPrimeItem.FromJsonOfToJson | frontend/js/domain/prime-item.js:243-260 | for every item in normal form, `fromJSON(item.toJSON())` gives back its serialised fields; the cached server counts and first/last values, which are not serialised, come back as `null` |
| JsPrimeItem.Construct | js/domain/prime-item.js:17-33 | the constructor succeeds exactly when the title is present and the description, category and timestamp list are not `null`; title, description and category are trimmed, and left in normal form; defaults replace `undefined` only; a missing `archived` is `false`, and a `null` one stays `null` |
| JsPrimeItem.CategoryKeepsCase | js/domain/prime-item.js:29 | the category is trimmed but keeps its case: `" Math "` is stored as `"Math"` |
| JsPrimeItem.PrimeItem.constructor | js/domain/prime-item.js:17-33 | the new object holds exactly the given fields |
| JsPrimeItem.PrimeItem.Create | js/domain/prime-item.js:17-33 | `new PrimeItem(data)` is a fresh item with the constructed fields in normal form, or the TypeError it throws |
| JsPrimeItem.PrimeItem.LogPrime | js/domain/prime-item.js:38-40 | appends the current time to the log and nothing else, so the total grows by one |
| JsPrimeItem.PrimeItem.GetTotalCount | js/domain/prime-item.js:45-47 | the total is the length of the log |
| JsPrimeItem.PrimeItem.GetTodayCount | js/domain/prime-item.js:52-58 | the entries at or after local midnight, at most the total |
| JsPrimeItem.PrimeItem.GetThisWeekCount | js/domain/prime-item.js:63-71 | the entries since the start of the week, at most the total |
| JsPrimeItem.PrimeItem.GetThisMonthCount | js/domain/prime-item.js:76-83 | the entries since the first of the month, at most the total |
| JsPrimeItem.PrimeItem.GetFirstPrimeDate | js/domain/prime-item.js:89-93 | `null` exactly for an empty log; otherwise an entry of the log that no other precedes |
| JsPrimeItem.PrimeItem.GetLastPrimeDate | js/domain/prime-item.js:99-103 | `null` exactly for an empty log; otherwise an entry of the log that no other follows |
| JsPrimeItem.PrimeItem.Archive | js/domain/prime-item.js:152-154 | the item is archived afterwards, and only that flag changes |
| JsPrimeItem.PrimeItem.Restore | js/domain/prime-item.js:159-161 | the item is not archived afterwards, and only that flag changes |
| JsPrimeItem.PrimeItem.Update | js/domain/prime-item.js:166-170 | each provided property is trimmed into its field, the category keeping its case; absent ones leave their fields as they were |
| JsPrimeItem.FirstNotAfterLast | js/domain/prime-item.js:89-103 | on a non-empty log the first entry is never after the last |
| JsPrimeItem.CountsNest | js/domain/prime-item.js:52-83 | today's count is at most this week's and at most this month's when those periods start no later than today |
| JsReviewItem.Construct | js/domain/review-item.js:17-35 | the constructor succeeds exactly when the title is present and the description, category and timestamp list are not `null`; title and description are trimmed and the category trimmed and lower-cased, and left in normal form; a missing `firstStudiedAt` is `null`; a missing `archived` is `false`, and a `null` one stays `null` |
| JsReviewItem.ReviewItem.constructor | js/domain/review-item.js:17-35 | the new object holds exactly the given fields |
| JsReviewItem.ReviewItem.Create | js/domain/review-item.js:17-35 | `new ReviewItem(data)` is a fresh item with the constructed fields in normal form, or the TypeError it throws |
| JsReviewItem.ReviewItem.LogReview | js/domain/review-item.js:40-48 | appends the current time to the log and sets the first-studied moment only when none was stored; the total grows by one and the last review becomes the later of the old last review and now |
| JsReviewItem.ReviewItem.GetTotalCount | js/domain/review-item.js:53-55 | the total is the number of logged reviews |
| JsReviewItem.ReviewItem.GetTodayCount | js/domain/review-item.js:60-66 | the reviews at or after local midnight, at most the total |
| JsReviewItem.ReviewItem.GetThisWeekCount | js/domain/review-item.js:71-79 | the reviews since the start of the week, at most the total |
| JsReviewItem.ReviewItem.GetThisMonthCount | js/domain/review-item.js:84-91 | the reviews since the first of the month, at most the total |
| JsReviewItem.ReviewItem.GetFirstStudiedDate | js/domain/review-item.js:97-100 | the stored first-studied moment, `null` while none is stored |
| JsReviewItem.ReviewItem.GetLastReviewDate | js/domain/review-item.js:106-110 | `null` exactly when there is no review; otherwise a logged review that no other follows |
| JsReviewItem.ReviewItem.Archive | js/domain/review-item.js:159-161 | the item is archived afterwards, and only that flag changes |
| JsReviewItem.ReviewItem.Restore | js/domain/review-item.js:166-168 | the item is not archived afterwards, and only that flag changes |
| JsReviewItem.ReviewItem.Update | js/domain/review-item.js:173-177 | each provided property replaces its field in normal form; absent ones leave their fields as they were |
| FrontendStudyItem.Construct | frontend/js/domain/study-item.js:20-42 | the constructor succeeds exactly when the title is present and the description, category and timestamp list are not `null`; title and description are trimmed and the category trimmed and lower-cased, in normal form; the notes are kept as given, untrimmed, and the first-studied moment and source prime item default to `null`; a missing `archived` is `false`, and a `null` one stays `null` |
| FrontendStudyItem.StudyItem.constructor | frontend/js/domain/study-item.js:20-42 | the new object holds exactly the given fields |
| FrontendStudyItem.StudyItem.Create | frontend/js/domain/study-item.js:20-42 | `new StudyItem(data)` is a fresh item with the constructed fields in normal form, or the TypeError it throws |
| FrontendStudyItem.StudyItem.LogStudy | frontend/js/domain/study-item.js:47-55 | appends the current time to the log and sets the first-studied moment only when none was stored; the total grows by one |
| FrontendStudyItem.StudyItem.GetTotalCount | frontend/js/domain/study-item.js:60-62 | the total is the number of logged sessions |
| FrontendStudyItem.StudyItem.GetTodayCount | frontend/js/domain/study-item.js:67-73 | the sessions at or after local midnight, at most the total |
| FrontendStudyItem.StudyItem.GetThisWeekCount | frontend/js/domain/study-item.js:78-86 | the sessions since the start of the week, at most the total |
| FrontendStudyItem.StudyItem.GetThisMonthCount | frontend/js/domain/study-item.js:91-98 | the sessions since the first of the month, at most the total |
| FrontendStudyItem.StudyItem.GetFirstStudiedDate | frontend/js/domain/study-item.js:104-107 | the stored first-studied moment, `null` while none is stored |
| FrontendStudyItem.StudyItem.GetLastStudyDate | frontend/js/domain/study-item.js:113-117 | `null` exactly when there is no session; otherwise a logged session that no other follows |
| FrontendStudyItem.StudyItem.Archive | frontend/js/domain/study-item.js:166-168 | the item is archived afterwards, and only that flag changes |
| FrontendStudyItem.StudyItem.Restore | frontend/js/domain/study-item.js:173-175 | the item is not archived afterwards, and only that flag changes |
| FrontendStudyItem.StudyItem.Update | frontend/js/domain/study-item.js:180-185 | each property that is not `undefined` replaces its field: text fields in normal form, the notes as given, `null` included; the other fields stay as they were |
| FrontendStudyItem.StudyItem.ToJson | frontend/js/domain/study-item.js:190-203 | the serialised form carries every field: id, title, description, category, notes, log, first-studied moment, archived flag, creation time and source prime item |
| FrontendStudyItem.FromJsonOfToJson | frontend/js/domain/study-item.js:190-210 | for every item in normal form, `fromJSON(item.toJSON())` gives back all of its fields |
| Storage.Resolve | frontend/js/data/storage.js:93-108 | the value a payload rule resolves to, `snake ?? camel ?? outer?.inner`; a rule that converts dates never leaves a number behind |
| Storage.SetDefined | frontend/js/data/storage.js:123-131 | `if (v !== undefined) m.k = v`: afterwards the property is present unless the value was `undefined` and the property was absent before |
| Storage.AssignedAt | frontend/js/data/storage.js:110-131 | after the conditional assignments, each snake_case property holds the value its last rule resolved, or what the copy had when that was `undefined`; other properties keep what the copy had |
| Storage.PayloadAt | frontend/js/data/storage.js:91-134 | the normalised payload holds none of the deleted camelCase properties; each snake_case property holds the first non-nullish of its snake_case, camelCase and nested sources, or keeps what it had; every other property is copied unchanged |
| Storage.PayloadKeys | frontend/js/data/storage.js:110-120 | the deleted properties are gone, and every property no rule names is copied as it was |
| Storage.SnakeWins | frontend/js/data/storage.js:93-108 | a non-null snake_case value wins over the camelCase one; when the snake_case value is missing or `null` the camelCase one is used |
| Storage.PayloadIdempotent | frontend/js/data/storage.js:91-134 | normalising an already normalised payload changes nothing |
| Storage.TimeEntryRules | frontend/js/data/storage.js:237-240 | the four time-entry renamings have distinct snake_case names, and each camelCase name is deleted |
| Storage.NormalizeTimeEntryPayload | frontend/js/data/storage.js:234-255 | a falsy or non-object payload is returned as it is; otherwise the result is the normalised payload, which has no `taskTitle`, `startedAt`, `endedAt` or `durationSeconds` left, and normalising it again changes nothing |
| Storage.HabitRules | frontend/js/data/storage.js:93-108 | the eight habit renamings, with their nested `targets` and `counts` fallbacks, have distinct snake_case names, and every camelCase name and nested object is deleted |
| Storage.NormalizeHabitPayload | frontend/js/data/storage.js:91-134 | a falsy or non-object payload is returned as it is; otherwise the result is the normalised payload, which has none of the ten deleted properties, and normalising it again changes nothing |
| Storage.PrimeRules | frontend/js/data/storage.js:307-308 | the two prime-item renamings have distinct snake_case names, and each camelCase name is deleted |
| Storage.NormalizePrimeItemPayload | frontend/js/data/storage.js:304-319 | a falsy or non-object payload is returned as it is; otherwise the result is the normalised payload, without `primeTimestamps` or `createdAt`, and normalising it again changes nothing |
| Storage.ReviewRules | frontend/js/data/storage.js:361-364 | the three review-item renamings have distinct snake_case names, and each camelCase name is deleted |
| Storage.NormalizeReviewItemPayload | frontend/js/data/storage.js:358-390 | a falsy or non-object payload is returned as it is; otherwise the result is the normalised payload, with a numeric `first_studied_at` turned into an ISO string and no camelCase spelling left; normalising it again changes nothing |
| Storage.ApiValue | frontend/js/data/storage.js:137-155 | the value an API rule resolves to, `camel ?? snake ?? outer?.inner ?? fallback`, is present whenever the rule has a fallback |
| Storage.WithCamelAt | frontend/js/data/storage.js:140-155 | after `{ ...item, camel: value }`, each camelCase property holds its resolved value, and every other property is copied |
| Storage.HabitApiRules | frontend/js/data/storage.js:142-154 | the camelCase names the habit reader sets are distinct |
| Storage.CountValue | frontend/js/data/storage.js:147-149 | a count read back is never `null`: it is `counts.period`, else `period_count`, else 0 |
| Storage.NormalizeHabitFromApi | frontend/js/data/storage.js:137-156 | a falsy or non-object item is returned as it is; otherwise the result has the rebuilt `counts`, an `isActive` that is never `null` (the item's own when it carries one, true when neither spelling does) and a `createdAt`; every property it does not set is copied |
| Storage.HabitCountsNeverNull | frontend/js/data/storage.js:146-150 | every count of a read-back habit is present and not `null`, and a count neither spelling carries is 0 |
| Storage.PrimeApiRules | frontend/js/data/storage.js:324-328 | the camelCase names the prime-item reader sets are distinct |
| Storage.NormalizePrimeItemFromApi | frontend/js/data/storage.js:321-329 | a falsy or non-object item is returned as it is; otherwise `primeTimestamps` is the camelCase value, else the snake_case one, else `[]`, never `null`; `createdAt` the same with `null` as the default; all other properties are copied |
| Storage.ReviewApiRules | frontend/js/data/storage.js:395-399 | the camelCase names the review-item reader sets are distinct |
| Storage.NormalizeReviewItemFromApi | frontend/js/data/storage.js:392-401 | a falsy or non-object item is returned as it is; otherwise `reviewTimestamps` is `item.reviewTimestamps ?? item.review_timestamps ?? []` and never `null`, and `firstStudiedAt` and `createdAt` are the camelCase value `??` the snake_case value `?? null`; all other properties are copied |
| Storage.PrimePayloadReadsBack | frontend/js/data/storage.js:304-329 | a prime item sent through the payload normaliser and read back by the API normaliser shows the timestamps and creation date that reading it directly shows, unless it spelled one of them both ways |
| Storage.Numbers | frontend/js/data/storage.js:448 | the review log is the prime log, element by element |
| Storage.FirstStudied | frontend/js/data/storage.js:449-452 | the first-studied moment is `null` exactly for an empty prime log, and otherwise its earliest entry |
| Storage.FindPrime | frontend/js/data/storage.js:440 | `find` gives the first item with the id, or none when no item has it |
| Storage.ConvertPrimeToReview | frontend/js/data/storage.js:437-466 | `null` exactly when no loaded prime item has the id; otherwise the review item built from the first one with that id, and the patch `{ archived: true }` for it |
| Storage.ConversionAsSent | frontend/js/data/storage.js:437-466 | the review item as sent to the API carries the prime item's timestamps, its earliest timestamp as an ISO date (`null` when there is none) and the current time as its creation date |
| Storage.ConversionSentFields | frontend/js/data/storage.js:443-455 | the sent review item has the new id and the prime item's title, is not archived, and has no camelCase spelling left |
| MomentStorage.FindMoment | frontend/js/data/storage.js:61 | `findIndex` gives the first moment with the id, or -1 exactly when none has it |
| MomentStorage.WithoutMoment | frontend/js/data/storage.js:79 | the filter keeps exactly the moments without the id, and is no longer than the list |
| MomentStorage.WithoutMomentConcat | frontend/js/data/storage.js:79 | Filtering keeps order and multiplicity: the filter of a concatenation is the concatenation of the filters |
| MomentStorage.WithoutMomentSingleton | frontend/js/data/storage.js:79 | a single moment is kept exactly when it does not carry the id |
| MomentStorage.WithoutMomentShrinks | frontend/js/data/storage.js:79-80 | the filtered list has the same length exactly when no moment has the id |
| MomentStorage.PatchedMoment | frontend/js/data/storage.js:65-69 | the patched moment keeps its id; every other property is the patch's when the patch has it, and the moment's own otherwise |
| MomentStorage.MomentStore.constructor | frontend/js/data/storage.js:57-59 | a store holding the given saved list |
| MomentStorage.MomentStore.UpdateMoment | frontend/js/data/storage.js:57-73 | returns false and saves nothing when no moment has the id; otherwise returns true and saves the list with the first such moment patched |
| MomentStorage.MomentStore.DeleteMoment | frontend/js/data/storage.js:75-88 | returns true exactly when some moment had the id, and then saves the other moments in their order (MomentStorage.WithoutMomentConcat); otherwise saves nothing |
| TrackerViews.OwnedBy | backend/tracker/views.py:32-33 | the queryset has no more rows than the table |
| TrackerViews.OwnedByMembers | backend/tracker/views.py:32-33 | the queryset holds exactly the rows the requesting user owns |
| TrackerViews.PerformCreate | backend/tracker/views.py:35-36 | the new row is appended after the existing ones, stamped with the requesting user |
| TrackerViews.CreatedVisibleToCreatorOnly | backend/tracker/views.py:29-36 | a created row shows up at the end of its creator's queryset and leaves every other user's queryset as it was |
| TrackerViews.OwnedByAppend | backend/tracker/views.py:32-33 | filtering a table with one more row adds that row to the end of its owner's queryset and nothing to anyone else's |
| TrackerViews.SerializerClass | backend/tracker/views.py:94-100 | the list serializer exactly for a list request without a truthy `include_timestamps` and for `log_prime`; the full serializer otherwise |
| TrackerViews.TruncateToInt | backend/tracker/views.py:105 | Python's `int` on a float truncates toward zero: the floor for a non-negative value, the ceiling for a negative one |
| TrackerViews.PrimeItemRow.constructor | backend/tracker/models.py:128-142 | a new row with the given key, owner and title, the empty list as its log (`default=list`) and no last priming time |
| TrackerViews.PrimeItemRow.LogPrime | backend/tracker/views.py:105-112 | as intended (see Findings), the current time in whole milliseconds is appended to the log, a missing log counting as empty; `last_primed_at` becomes that time in seconds; no other field is written |
| TrackerViews.GetObject | backend/tracker/views.py:104 | the item is a row of the table that the user owns with that key; there is none exactly when the user owns no row with that key |
| TrackerViews.LogPrimeStatus | backend/tracker/views.py:102-114 | the intended action answers 200 exactly when the user owns an item with that key, and 404 exactly when it does not |
| TrackerViews.LogPrimeView | backend/tracker/views.py:102-114 | the action as intended (see Findings): 404 exactly when the user owns no item with that key; otherwise 200, that item's log gains `int(now * 1000)` after all its earlier entries, `last_primed_at` becomes that value over 1000, its title is unchanged, and every other row is unchanged |
| TrackerViews.AsWrittenLogPrimeStatus | backend/tracker/views.py:104-111 | the code as written answers 500 exactly when the user owns an item with that key, 404 exactly when it does not, and never 200 |
| TrackerViews.LogPrimeViewAsWritten | backend/tracker/views.py:102-114 | as written, the action changes no row: its status is 404 without the item and 500, from the `timezone.UTC` lookup that raises, with it |
| TrackerViews.LogPrimeUtcFinding | backend/tracker/views.py:109-111 | for any item its owner logs, the code as written answers 500 where the intended action answers 200 |

## Left out

- DOM rendering, event binding and view code are not modelled; only the state the controllers keep and the values they compute are.
- The network layer (`apiRequest` and the create/load/update/delete wrappers of frontend/js/data/storage.js) is not modelled. `convertPrimeToReview` is modelled on the loaded prime items, given as a value, and returns what it would send. Its error path (a failed request gives `null`) is not modelled.
- `saveMoments`, `loadMoments`, `exportAllData`, `importAllData`, `clearAllData` and the active-timer helpers of frontend/js/data/storage.js are `localStorage` I/O with no logic of their own. They are not modelled.
- `JSON.parse` failures and the storage of a stored value that is the empty string are not modelled; a stored list is present or absent.
- The timer's ticking, sound and subscribers (`setInterval`, `_notify`) are left out. The timer's state transitions are modelled.
- Calendar arithmetic (local midnight, the Sunday week, the month start, daylight saving) is not modelled; the boundaries are parameters, including the next local midnight that ends `getTodayWindowMs`'s window.
- `toLowerCase` is modelled for ASCII letters only; other Unicode case mappings are not modelled. `trim` uses the full ECMAScript whitespace set.
- JavaScript numbers are integers in the model, except in js/utils/time.js, where fractional seconds matter and are reals. `NaN` and infinities are not modelled, except as the falsy value `seconds || 0` replaces.
- Properties set to `undefined` count as absent. Inherited property names of plain objects (such as `constructor` on `defaults[type]`) are not modelled.
- An array payload spreads into its index properties. Its `length` and other non-index properties are not modelled.
- Property names are the names the storage code spells out, each a distinct code, plus any other name.
- `normalizeReviewItemPayload` also converts a `Date` object in `first_studied_at` to its ISO string. Date objects are not values in the model, so that branch is not modelled. The `RangeError` of `toISOString` on an out-of-range number is not modelled either.
- Passing `null` to an item's `update()` throws in the source. That call is not modelled: `update` takes each field as present or absent.
- Arrays are values in the model, so the copy `[...primeTimestamps]` in the item constructors, which stops later edits of the input array from reaching the item, holds by construction and is not a separate statement.
- Item `toJSON` is modelled as its serialised fields. `fromJSON` is modelled by applying the constructor to them, which is what it does.
- The `get*TimeAgo` methods of the item classes are not modelled. They format elapsed time for display.
- `Habit.createdAt` is kept as milliseconds: `new Date(createdAt).toISOString()` is the identity on the model's instant. Invalid dates are not modelled.
- The review totals in the stats view come from frontend/js/domain/review-item.js, which is not part of this model. Stats models the time-entry grouping and the prime sums.
- The `onSave` handler of the list view, which edits a task in the list, is not modelled.
- `PrimeItemListSerializer` is imported by backend/tracker/views.py but not defined in backend/tracker/serializers.py. `get_serializer_class` is therefore modelled as a choice between two serializer kinds, and the fields each one outputs are not modelled.
- The queryset ordering by `last_primed_at`, `created_at` and the Django persistence layer (`save`, migrations, management commands) are not modelled. `log_prime` is modelled on the row it writes.
- `RegisterView` is not modelled.
- `handleArchiveProject` depends on js/domain/project.js, which is not part of this model. `loadProjects` and `loadTasks` are I/O.
- Rebuilding each task through `new Task(task.toJSON())` in `handleDeleteProject` uses js/domain/task.js, which is not part of this model. It is modelled by its effect on the fields the model keeps: the title is trimmed again, `createdAt` becomes now and the project is cleared.
- `searchFavorites` and the favourites' `localStorage` persistence are not modelled. The store holds the parsed list, and a missing list means the defaults.
- The category manager's `fetch` of the category list and its dropdown rendering are not modelled. `loadCategories` takes the items as a parameter.
- `setClockDisplay` writes to the DOM; only its `split(":")` is modelled.
- StudyCipher.TokenizeGivesTokens: strings are sequences of Unicode scalar values in the model, while the source's regular expression has no `u` flag, so `[^\w\s]` matches one UTF-16 code unit. A character outside the Basic Multilingual Plane, such as an emoji, is therefore two surrogate tokens in the source and one token in the model.
- StudyCipher.CipherTextRaw: for the same reason, a character outside the Basic Multilingual Plane gives two cipher tokens in the source and one in the model.
- Categories.DatasetCategory: it models only the cut at the first `"`, which `escapeHtml` leaves unescaped inside the double-quoted attribute. The HTML parser's newline normalisation and its replacement of NUL characters in attribute values are not modelled.
- TrackerViews.LogPrimeView: `timezone.now().timestamp() * 1000` is floating-point arithmetic in the source and exact real arithmetic here, so `int(...)` can come out one millisecond different; `fromtimestamp` rounding to microseconds is not modelled either.

## Findings

| source | as written | input that shows it | evidently intended | confidence | as-written member | corrected member |
|---|---|---|---|---|---|---|
| backend/tracker/views.py:109-111 | `last_primed_at` is set with `fromtimestamp(timestamp_ms / 1000, tz=timezone.UTC)`, but `django.utils.timezone` has no attribute `UTC`; the import commands look it up with `getattr(timezone, "UTC", None)` and fall back to `datetime.timezone.utc` | a `POST` to `log_prime` for an item the requesting user owns: `AttributeError` before `item.save`, so the answer is 500 and the log is not written | a UTC time zone that exists (`datetime.timezone.utc`), so the log gains the entry, `last_primed_at` is set and the answer is 200 | high; not executed | TrackerViews.LogPrimeViewAsWritten, TrackerViews.LogPrimeUtcFinding | TrackerViews.LogPrimeView |
