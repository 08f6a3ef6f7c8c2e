# LinkTasker core, modelled in Dafny

LinkTasker is a browser organizer that keeps two in-memory lists: tasks
(a title, a due date, a priority, a category and a done flag) and saved
links (a URL, a title, a category and tags). This project models the parts
of it that compute something:

- the analytics aggregator in `src/utils/analyticsUtils.js`:
  - the fixed category and priority tables and their lookups;
  - link counts per category and task counts per priority;
  - the completed / overdue / pending partition;
  - completion percentages per category;
  - the 14-day activity series with its demo fallback;
  - the time-to-completion summary.
- the list handlers of `src/components/MainFeature.jsx`:
  - toggling and deleting;
  - form validation, adding and editing;
  - parsing tags and prefilling the tag field;
  - the category filter;
  - the link's `href`.
- the headline selections of the analytics charts:
  - the best and worst category in `CategoryPerformanceChart.jsx`;
  - the most-used category and total in `LinkUsageChart.jsx`.

Records are immutable datatypes and every operation is a pure function over
`seq`. Timestamps are integers counting milliseconds. A calendar day is
`DayOf(ts)`, the floor of the timestamp divided by 86 400 000. The current
instant, fresh ids and the parsing of the date input are parameters of the
operations that use them.

Files, one module each:

- `wrappers.dfy`: `Option`.
- `seqs.dfy`: the sequence helpers:
  - counting, filtering and mapping;
  - occurrence counts and first index;
  - `Tally`, the counting loop that the per-category, per-priority and per-day tallies share.
- `text.dfy`: the JavaScript string functions the handlers use: `trim`, `split`, `join` and `startsWith`.
- `calendar.dfy`: days and whole-day differences.
- `records.dfy`: tasks, links, the two tables and their lookups.
- `reductions.dfy`: the seeded, strict maximum and minimum searches and `indexOf(Math.max(...))`.
- `analytics.dfy`: the analytics aggregator, except completion times.
- `completion_time.dfy`: `getTaskCompletionTime`.
- `store.dfy`: the MainFeature handlers.
- `charts.dfy`: the two chart components.

## Model

| member | source | states |
|---|---|---|
| `Records.TablesWellFormed` | src/utils/analyticsUtils.js:4-19 | the category table has seven rows and the priority table three, each with distinct ids and distinct names |
| `Records.Lookup` | src/utils/analyticsUtils.js:22-25 | like `find` with a fallback: the first row with the id when one exists, the fallback when none does |
| `Records.CategoryById` | src/utils/analyticsUtils.js:22 | the label of the table row with that id; `Uncategorized` / `#94a3b8` for an id outside the table |
| `Records.PriorityById` | src/utils/analyticsUtils.js:25 | the label of the row with that id; `Medium` / `#f59e0b` for an id outside the table |
| `Records.CategoryFallbackOnlyForUnknown` | src/utils/analyticsUtils.js:22 | the fallback label comes back if and only if the id is not in the table |
| `Seqs.Tally` | src/utils/analyticsUtils.js:29-39 | the counting loop: one counter per table id, each counter equal to how often its id occurs, and their sum equal to the number of keys that are in the table |
| `Seqs.CountInBound` | src/utils/analyticsUtils.js:35-39 | at most every key is counted, and every key is counted exactly when each one is a table id |
| `Analytics.LinksByCategory` | src/utils/analyticsUtils.js:28-46 | seven names, counts and colors in table order; each count is its category's number of links; the sum is at most the number of links, and equal to it exactly when every link's category is known |
| `Analytics.UnknownLinkIgnored` | src/utils/analyticsUtils.js:35-39 | adding a link of an unknown category leaves the result unchanged |
| `Analytics.TasksByPriority` | src/utils/analyticsUtils.js:96-114 | three labels, counts and colors in low, medium, high order; each count is the number of tasks with that priority; the sum is at most the number of tasks, and equal exactly when every priority is known |
| `Analytics.StatusOf` | src/utils/analyticsUtils.js:50-52 | completed exactly when the task is done; overdue exactly when it is open and `now` is strictly after its due date; pending exactly when it is open and due at or after `now` |
| `Analytics.StatusesPartition` | src/utils/analyticsUtils.js:50-52 | every task has exactly one status, so the three status counts add up to the number of tasks |
| `Analytics.CompletionStatus` | src/utils/analyticsUtils.js:49-59 | the three filter counts are the numbers of completed, overdue and pending tasks, and they sum to the number of tasks |
| `Analytics.DueNowIsPending` | src/utils/analyticsUtils.js:51-52 | an open task due exactly at the current instant is pending, not overdue, because `isAfter` is strict |
| `Analytics.RoundPercent` | src/utils/analyticsUtils.js:88 | `Math.round(100 * done / total)` as the integer nearest to the exact ratio, with halves rounded up; it lies in 0..100 when done <= total |
| `Analytics.CategoryDones` | src/utils/analyticsUtils.js:74-81 | per table row, the number of completed tasks of that category, never more than the row's total |
| `Analytics.DoneAtMostTotal` | src/utils/analyticsUtils.js:76-79 | a category's completed count never exceeds its task count |
| `Analytics.ScoresInTableOrder` | src/utils/analyticsUtils.js:84-90 | the bars built from increasing table rows come out in strictly increasing table order |
| `Analytics.TaskCompletionByCategory` | src/utils/analyticsUtils.js:62-93 | at most seven bars, each between 0 and 100, in table order; each bar is its category's rounded completion percentage; a category has a bar if and only if it has at least one task |
| `Analytics.UnknownTaskIgnored` | src/utils/analyticsUtils.js:74-81 | adding a task of an unknown category changes no bar |
| `Analytics.WithTaskFallback` | src/utils/analyticsUtils.js:146-152 | an all-zero task series becomes 2, 1, 3, 2, 1 at indices 13, 12, 10, 8, 5 and 0 elsewhere; any other series is returned as is |
| `Analytics.WithLinkFallback` | src/utils/analyticsUtils.js:155-161 | an all-zero link series becomes 1, 2, 1, 2, 1 at indices 13, 11, 9, 6, 4 and 0 elsewhere; any other series is returned as is |
| `Analytics.TimeAnalytics` | src/utils/analyticsUtils.js:117-168 | fourteen days ending today, oldest first. Each day's task count is the number of completed tasks whose `completedAt`, or else `createdAt`, falls on that day. Each day's link count is the number of links created that day. Either series is replaced by its demo pattern when it is all zero, so neither returned series is all zero |
| `Analytics.EffectiveCompletedAt` | src/utils/analyticsUtils.js:132 | the recorded completion instant when there is one, otherwise the creation instant |
| `Analytics.SeriesCountEachRecordOnce` | src/utils/analyticsUtils.js:126-143 | when real data is shown, the task series adds up to at most the number of completed tasks and the link series to at most the number of links |
| `Analytics.OpenTaskNotCounted` | src/utils/analyticsUtils.js:132 | adding an open task changes nothing in the activity series |
| `Calendar.DayOf` | src/utils/analyticsUtils.js:132 | the day of an instant: the day whose 86 400 000 ms span contains it |
| `Calendar.DaysBetween` | src/utils/analyticsUtils.js:192 | `differenceInDays`: the number of whole days elapsed, truncated toward zero in either direction |
| `Calendar.SameDayWithinADay` | src/utils/analyticsUtils.js:192 | two instants on the same day are zero whole days apart |
| `CompletionTime.CompletedInstant` | src/utils/analyticsUtils.js:188 | the recorded completion instant when there is one; a made-up one is never before the creation instant |
| `CompletionTime.DaysToComplete` | src/utils/analyticsUtils.js:185-193 | whole days from creation to completion. Under a day in either direction counts as 1. A difference of a day or more in either direction is kept as the whole days truncated toward zero, so a backwards one stays negative. The result is never 0 |
| `CompletionTime.Samples` | src/utils/analyticsUtils.js:173-194 | one sample per completed task, in task order, carrying that task's category and its days to complete |
| `CompletionTime.AddSampleEffect` | src/utils/analyticsUtils.js:203-213 | afterwards the sample's category has a group. A new category gets a group at the end holding the one sample. A known category's first group gains the sample's days and one more count, and no other group changes |
| `CompletionTime.AddNewCategory` | src/utils/analyticsUtils.js:204-212 | a sample of a category not seen before opens a new group at the end that holds just that sample |
| `CompletionTime.AddKnownCategory` | src/utils/analyticsUtils.js:211-212 | a sample of a category already seen adds its days and one to that category's group |
| `CompletionTime.GroupBy` | src/utils/analyticsUtils.js:201-213 | one group per category of the samples and no others. Each group holds its category's sample count and total days. Groups are ordered by first appearance |
| `CompletionTime.CategoryAverages` | src/utils/analyticsUtils.js:216-221 | per category, in order of first appearance, the mean days of its samples; distinct categories; every sample's category has an entry; empty exactly when there are no samples |
| `CompletionTime.Quickest` | src/utils/analyticsUtils.js:224-235 | the search from `Infinity` with `<` always finds a category, the first with the lowest mean |
| `CompletionTime.Slowest` | src/utils/analyticsUtils.js:225-241 | the search from -1 with `>` finds nothing exactly when every mean is -1 or below, otherwise the first category with the highest mean |
| `CompletionTime.Summarize` | src/utils/analyticsUtils.js:197-246 | the average is the total days divided by the number of samples. The quickest category is the first with the lowest mean and is always present. The slowest is the first with the highest mean, and is absent exactly when every mean is -1 or below |
| `CompletionTime.TaskCompletionTime` | src/utils/analyticsUtils.js:171-182 | the placeholder 3.2 / `work` / `personal` when no task is completed; otherwise the summary of the completed tasks |
| `Reductions.MaxAbove` | src/components/analytics/CategoryPerformanceChart.jsx:83-86 | the left fold with `>` from a seed: absent exactly when no value exceeds the seed, otherwise the first index of the maximum, which exceeds the seed |
| `Reductions.MinBelow` | src/components/analytics/CategoryPerformanceChart.jsx:88-91 | the left fold with `<` from a seed: absent exactly when no value is below the seed, otherwise the first index of the minimum, which is below the seed |
| `Reductions.MinBelowInfinity` | src/utils/analyticsUtils.js:226-235 | from an `Infinity` seed the minimum search always finds an entry when there is one |
| `Reductions.IndexOfMax` | src/components/analytics/LinkUsageChart.jsx:69 | `indexOf(Math.max(...xs))`: -1 for no values, otherwise the first index holding the largest value |
| `Charts.BestCategory` | src/components/analytics/CategoryPerformanceChart.jsx:79-86 | the first bar with the highest percentage if that is above 0, otherwise `None` at 0; never below any bar |
| `Charts.WorstCategory` | src/components/analytics/CategoryPerformanceChart.jsx:80-91 | the first bar with the lowest percentage if that is below 100, otherwise `None` at 100; never above any bar |
| `Charts.CategoryPerformance` | src/components/analytics/CategoryPerformanceChart.jsx:69-92 | the series is the aggregator's; the headlines are that series' best and worst standings, and they bound every bar |
| `Charts.NoTasksNoStandings` | src/components/analytics/CategoryPerformanceChart.jsx:79-82 | without tasks, both headlines are `None` |
| `Charts.NothingDoneNoBest` | src/components/analytics/CategoryPerformanceChart.jsx:83-86 | with no completed task, the best category is `None` |
| `Charts.AllDoneNoWorst` | src/components/analytics/CategoryPerformanceChart.jsx:88-91 | with every task completed, the worst category is `None` |
| `Charts.LinkUsageOf` | src/components/analytics/LinkUsageChart.jsx:54-70 | the series, labels and colors are the aggregator's, all of length seven. The most-used label is the category at the first index of the largest count, so it is never `None`. The total is the number of links, at least the sum of the series |
| `Charts.NoLinksReportsFirstCategory` | src/components/analytics/LinkUsageChart.jsx:69-70 | with no links, the most-used category is `Self Help` |
| `Charts.UnknownLinkWidensGap` | src/components/analytics/LinkUsageChart.jsx:84 | with a link of an unknown category, the displayed total is strictly greater than the sum of the series |
| `Store.ToggleCompletion` | src/components/MainFeature.jsx:150-154 | same length; `isCompleted` flips exactly on the tasks with the id; every other field of every task is unchanged |
| `Store.ToggleTwice` | src/components/MainFeature.jsx:150-154 | toggling the same id twice restores the list |
| `Store.DeleteTask` | src/components/MainFeature.jsx:157-159 | a task remains if and only if it was there and has another id; the list keeps its length exactly when no task had the id |
| `Store.DeleteLink` | src/components/MainFeature.jsx:162-164 | a link remains if and only if it was there and has another id; the list keeps its length exactly when no link had the id |
| `Store.DeleteTaskIdempotent` | src/components/MainFeature.jsx:158 | deleting twice is deleting once |
| `Store.DeleteTaskSplits` | src/components/MainFeature.jsx:158 | deleting from a concatenation is concatenating the deletions, so the survivors keep their order |
| `Store.DeleteLinkIdempotent` | src/components/MainFeature.jsx:163 | deleting twice is deleting once |
| `Store.DeleteLinkSplits` | src/components/MainFeature.jsx:163 | deleting from a concatenation is concatenating the deletions, so the survivors keep their order |
| `Store.TaskErrors` | src/components/MainFeature.jsx:197-199 | a title error exactly when the title is white space only; a due-date error exactly when no date was entered; no other keys |
| `Store.EditTasks` | src/components/MainFeature.jsx:206-217 | same length; the tasks with the edited id get the form's title, description, due date, priority and category and keep their id, done flag and timestamps; every other task is unchanged |
| `Store.SubmitTask` | src/components/MainFeature.jsx:193-235 | rejected, with the validation errors, exactly when the title is blank or the date is missing. When a truthy id is being edited, the list is the edit of that id. Otherwise one open task is appended after the unchanged list. It has the fresh id and the current time, and it takes the title, description, due date, priority and category from the form |
| `Store.AddThenDeleteTask` | src/components/MainFeature.jsx:219-230 | adding a task under an unused id and deleting that id gives the original list back |
| `Store.LinkErrors` | src/components/MainFeature.jsx:243-250 | a non-empty URL that fails the pattern gets "Please enter a valid URL", replacing "URL is required". Otherwise there is a URL error exactly when the URL is white space only. There is a title error exactly when the title is white space only |
| `Store.LinkRejection` | src/components/MainFeature.jsx:243-255 | the link form has an error exactly when the URL or the title is blank, or a non-empty URL fails the pattern |
| `Store.EditLinks` | src/components/MainFeature.jsx:262-273 | same length; the links with the edited id get the form's URL, title, description, category and parsed tags and keep their id and creation time; every other link is unchanged |
| `Store.SubmitLink` | src/components/MainFeature.jsx:239-291 | rejected exactly when validation finds an error. When a truthy id is being edited, the list is the edit of that id. Otherwise one link is appended after the unchanged list. It has the fresh id, the current time and the parsed tags, and it takes the url, title, description and category from the form |
| `Store.JoinTags` | src/components/MainFeature.jsx:186 | `tags.join(', ')`: the submit's parse of the prefilled field gives back any list of non-empty, trimmed, comma-free tags |
| `Store.ParseTags` | src/components/MainFeature.jsx:257-260 | every tag is non-empty, has no surrounding white space and contains no comma; the empty field gives no tags |
| `Store.ParseOnePiece` | src/components/MainFeature.jsx:259 | a field without commas yields no tag when it is blank, and otherwise exactly its trimmed text |
| `Store.ParseAtComma` | src/components/MainFeature.jsx:259 | a field split at its first comma yields the tags of the text before it followed by the tags of the rest, so with `ParseOnePiece` the tags of every field are determined |
| `Store.TagsRoundTrip` | src/components/MainFeature.jsx:257-260 | tags that are non-empty, trimmed and comma-free come back unchanged when joined with ", " for the edit form and parsed again |
| `Store.ReparseIsStable` | src/components/MainFeature.jsx:180-186 | opening a link for editing and saving the tag field unchanged keeps its tags |
| `Store.JoinCommaSpace` | src/components/MainFeature.jsx:186 | joining with ", " is joining with "," after a space is put before every tag but the first |
| `Store.FilteredTasks` | src/components/MainFeature.jsx:294-296 | `all` keeps the list as it is; any other filter keeps exactly the tasks of that category |
| `Store.FilteredLinks` | src/components/MainFeature.jsx:298-300 | `all` keeps the list as it is; any other filter keeps exactly the links of that category |
| `Store.FilteredTasksSplits` | src/components/MainFeature.jsx:294-296 | filtering distributes over concatenation, so the shown tasks keep their original relative order |
| `Store.FilteredLinksSplits` | src/components/MainFeature.jsx:298-300 | filtering distributes over concatenation, so the shown links keep their original relative order |
| `Store.FilteredTasksMatchCount` | src/components/MainFeature.jsx:294-296 | under a category filter, the list shows as many tasks as there are tasks of that category |
| `Store.FilteredLinksMatchCount` | src/components/MainFeature.jsx:298-300 | under a category filter, the list shows as many links as there are links of that category |
| `Store.Href` | src/components/MainFeature.jsx:744 | the result starts with "http"; a URL that already does is kept; any other gets "https://" in front |
| `Store.HrefIdempotent` | src/components/MainFeature.jsx:744 | normalising twice is normalising once |
| `Text.Trim` | src/components/MainFeature.jsx:198 | `trim()`: the result has no white space at either end, is a prefix of the string with its leading white space removed, only white space follows it there, and it is empty exactly when the string is all white space |
| `Text.Split` | src/components/MainFeature.jsx:259 | `split(',')`: at least one piece, and no piece contains the separator |
| `Text.JoinSplit` | src/components/MainFeature.jsx:259 | joining the pieces of a split with the separator gives the string back |
| `Text.SplitJoin` | src/components/MainFeature.jsx:259 | splitting the join of separator-free pieces gives the pieces back |

## Left out

- Persistence and UI glue are not modelled. That covers localStorage loading and saving, React state and effects, form resets, the chart options and everything rendered. The operations take and return the lists directly.
- Ids from `Date.now().toString()` and the creation instant from `new Date()` are the parameters `newId` and `now`. Their uniqueness is not guaranteed by the program, and the model does not assume it.
- `new Date(dueDate).toISOString()` is the parameter `toTimestamp`. Invalid dates, which make `toISOString` throw, are not modelled.
- The URL regular expression is the parameter `urlPattern`. Its language is not modelled.
- date-fns works in the local time zone (`isSameDay`, `subDays`, `format`, `differenceInDays`). The model uses UTC days of 86 400 000 ms, and the `MMM d` date labels are not produced.
- Analytics.TimeAnalytics: returns the day numbers instead of their formatted labels.
- CompletionTime.CompletedInstant: the random delay that stands in for a missing `completedAt` becomes the caller-supplied `mockDelay` in whole milliseconds.
- CompletionTime.Summarize: `averageDays` is the exact rational mean. The `toFixed(1)` rounding to one decimal is not applied.
- Analytics.RoundPercent: rounds the exact ratio. The source rounds the floating-point product `(done / total) * 100`, which can land just below a half and round down. For example, 29 of 200 gives 14 in the source and 15 here. The bound 0..100 holds either way.
- CompletionTime.CategoryAverages: categories are visited in order of first appearance. JavaScript enumerates integer-like object keys (such as `"42"`) first, in numeric order, so with such category ids the quickest and slowest ties could resolve differently.
- CompletionTime.GroupBy: groups every category id like any other. JavaScript's `!obj[key]` also sees inherited properties, so in the source a completed task whose category id names an `Object.prototype` member (such as `constructor`) is added onto that member. Its category then never gets an average of its own. When every completed task has such an id, the source's quickest and slowest are both `null`, while CompletionTime.Summarize always reports a quickest category. The `in` guards of the breakdowns see these ids too, but there the visible counts are unaffected, and the model treats such ids as unknown.
- Analytics.CompletionStatus: reads one instant `now` for all three counts. The source calls `new Date()` inside each filter callback, so the overdue and pending passes can read different instants. A task falling due between the two reads is then counted in neither, and the three counts add up to one less than the number of tasks. The partition holds only for the single instant.
- The status chart's fixed labels and colors (src/utils/analyticsUtils.js:55-57) are constants and are not modelled.
- The initial chart state before the effects run is not modelled. In that state the category performance chart's series is empty and shows `None` for both headlines, and the link chart shows seven zero counts with `Self Help` as most used.
- `editTask`'s prefill of the date input (`dueDate.split('T')[0]`) is not modelled, because the model stores the due date as an instant.
- The streak helpers (`calculateCurrentStreak`, `calculateLongestStreak`, `getStreakData`) are imported by src/pages/Streak.jsx but defined nowhere in the source, so there is nothing to model.
- The per-day averages and completion-rate display arithmetic in the chart components is one-line presentation and is not modelled.
