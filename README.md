# Duty roster scheduler — a Dafny model

This project models the scheduling core of a small duty-roster web
application. Each workday of a month, the application picks a crew of four
people from a roster of directors ("yönetmenler"). It respects:

- absences: people reassigned to the office, or on leave;
- per-person quotas of duty days;
- adjacency rules.

The core comes in two variants, and both are modelled.

- **The worker planner** (`src/worker.js`, `createPlanForMonth`). It runs these steps:
  1. collect the Monday–Friday non-holiday workdays of the month;
  2. group them into weeks;
  3. give every person a quota of `floor(T/N)` or `floor(T/N) + 1` duty days, where `T` is four times the number of workdays and `N` the roster size;
  4. raise a quota to a count carried over from the previous month when that count is larger;
  5. walk the weeks day by day. Each day it filters the eligible people, fails the whole run when fewer than four remain, sorts them by load, keeps the six least loaded, shuffles those and commits the first four.

  The message handler chains two months. The second month is seeded with the first month's last Friday crew and final counts.
- **The older greedy planner** (`src/App.jsx`, `createMonthlyPlan` and its helpers). It walks every Monday–Friday day of the month. A main pass takes up to four of the least-loaded people who are available on the day, have not served on the same weekday earlier in the month, and would not repeat a Friday→Monday or Monday→Tuesday pair. A fallback pass then tops the crew up from everyone available. The helpers that build the name lists (`handleBulkAdd`, `initializeNameListWithDates`, `handleDateChange`) and the availability test (`isDateInRange`, `isAvailable`) are modelled too.

Layout:

- `wrappers.dfy`: `Option` and `Result`.
- `seqs.dfy`: the helpers for `filter`, the stable sort by count, and the count tables.
- `calendar.dfy`: dates as ordinal day numbers, weekdays, month lengths and workdays.
- `worker.dfy`: the worker planner, as specification functions plus methods that follow the source's loops. Each method is proved equal to its function. The week test is a parameter `weekBreak` of the month run: `MondayBreak` is the test as written (`day === 1`), and `CalendarWeekBreak` is the corrected test of the Findings table. The count and quota lemmas hold for any week test, and so for the program as written. The lemmas about the cells of the week plans are stated for the corrected test.
- `worker_properties.dfy`: lemmas about the worker planner.
- `planner.dfy`: the greedy planner and the list helpers, in the same two forms.
- `planner_properties.dfy`: lemmas about the greedy planner.

Dates are integers: day 1 is 0001-01-01, a Monday, so `d % 7` is the JavaScript `getDay()` number (0 is Sunday). The random reordering of the candidate pool is a parameter `shuffle`. The only thing known about it is that it returns a permutation of its input.

## Model

| member | source | states |
|---|---|---|
| `Calendar.DaysInMonth` | src/worker.js:17 | a month has 28 to 31 days, and 29 exactly for February of a leap year |
| `Calendar.MonthsAreContiguous` | src/App.jsx:57-61 | the day after the last day of a month is the first day of the next month (of the next year after December), so walking from the start to the end of a month covers it exactly |
| `Calendar.September2025StartsOnMonday` | src/App.jsx:19 | the date encoding puts 1 September 2025, the month the page opens on, on a Monday |
| `Calendar.MonthWorkdaysExact` | src/worker.js:20-28 | a date is among the month's workdays iff it lies in the month, is Monday–Friday and is not a holiday; the workdays are strictly ascending |
| `Seqs.SortByCount` | src/worker.js:93 | the sort by count returns a permutation of its input, ascending by count, in which the people of each count keep their order in the input (a stable sort) |
| `Worker.CollectWorkdays` | src/worker.js:20-28 | the loop over days 1..daysInMonth returns the month's workdays, which `MonthWorkdaysExact` characterises |
| `Worker.SplitIntoWeeks` | src/worker.js:31-42 | the loop that closes a week and opens a new one whenever the week test says so returns the grouping `Group(workdays, weekBreak)`; with `MondayBreak` this is the loop as written, and `MondayWeeksPartition` or `CalendarWeeksPartition` characterise the result |
| `Worker.PlanQuotas` | src/worker.js:45-53 | the `reduce` over the roster returns the quota table of `QuotaShares` and `QuotaSum` |
| `Worker.RaiseQuotas` | src/worker.js:56-62 | walking the carried names in any order raises each roster person's quota to their carried count when that is larger; other names are ignored |
| `Worker.CommitCrew` | src/worker.js:98-101 | each selected person's count rises by one, and they join the people assigned this week |
| `Worker.PlanDay` | src/worker.js:73-106 | filter, feasibility check, sort, pool of six, shuffle, pick four and commit give the day result that `AssignDayCrew` and `AssignDayCommits` characterise |
| `Worker.PlanWeek` | src/worker.js:66-109 | one week's loop, with a fresh week-assignment set and five empty cells, gives the week result that `WeekSound` characterises |
| `Worker.CreatePlanForMonth` | src/worker.js:3-113 | the whole month run, for a given week test, gives the specification result `PlanForMonth`; with `MondayBreak` it is the program as written, and with `CalendarWeekBreak` it is the run that `PlanForMonthSound` characterises; `PlanForMonthFailsOnWorkday` holds for either |
| `WorkerProperties.MondayWeeksPartition` | src/worker.js:31-42 | as written, the weeks concatenate back to the workdays and none is empty; every week after the first starts on a Monday, and no later day of a week is a Monday |
| `WorkerProperties.CalendarWeeksPartition` | src/worker.js:31-42 | for ascending weekdays, the corrected weeks concatenate back to the input and none is empty; all days of a week share one ISO week, consecutive weeks differ, and inside a week the days ascend with distinct weekdays |
| `WorkerProperties.MonthWeeks` | src/worker.js:20-42 | the corrected weeks (`CalendarWeeks`) of a month's workdays partition them into non-empty runs of ascending, distinct weekdays; for the grouping as written see `MondayWeeksPartition` and `MondayHolidayMergesWeeks` |
| `WorkerProperties.MondayHolidayMergesWeeks` | src/worker.js:36 | as written, a holiday Monday puts the Tuesdays of two calendar weeks in one week, and the second Tuesday overwrites the first in the week plan; the corrected grouping keeps them apart |
| `WorkerProperties.QuotaShares` | src/worker.js:45-53 | the quota table has exactly the roster's names; each quota is `base` or `base + 1`; with distinct names, position `i` gets `base + 1` exactly when `i < extra` |
| `WorkerProperties.QuotaSum` | src/worker.js:45-53 | for a non-empty roster of distinct names, the planned quotas sum to the total demand |
| `WorkerProperties.MonthQuotaCovers` | src/worker.js:45-62 | the raise never lowers a quota; every carried roster count is at most the new quota; a roster person's new quota is the larger of their planned quota and their carried count, or the planned quota when nothing is carried for them; the table still has exactly the roster's names; without carried counts the quotas are the planned ones |
| `WorkerProperties.PoolLeastLoaded` | src/worker.js:93-94 | the pool has `min(eligible, 6)` of the eligible people, and none of them has a higher count than any eligible person left out |
| `WorkerProperties.AssignDayCrew` | src/worker.js:78-96 | the day fails iff fewer than four are eligible, and the failure names the date; on success the crew is four people from the pool, each an eligible roster member, pairwise distinct when the roster is |
| `WorkerProperties.CommitCounts` | src/worker.js:98-99 | committing a crew of distinct people raises exactly their counts by one and leaves every other count unchanged |
| `WorkerProperties.AssignDayCommits` | src/worker.js:98-106 | after a day, exactly the crew's counts rise by one; the crew joins the week's assigned set; the tracked Friday crew becomes the crew iff the day is a Friday |
| `WorkerProperties.WeekSound` | src/worker.js:66-109 | a planned week has cells holding four distinct available roster people on their own weekday; nobody is in two cells; the Friday cell avoids the previous Friday crew; counts stay within quotas and grow by four per day |
| `WorkerProperties.PlanForMonthSound` | src/worker.js:3-113 | a successful month has one plan per week; counts cover the roster, stay within quota and sum to four times the workdays; every week plan is sound against the Friday crew before it; the returned last Friday is the latest planned Friday crew, or the seed |
| `WorkerProperties.WeekCounts` | src/worker.js:66-109 | for a week of any days, grouped by any week test, a successful week keeps the counts on exactly the roster and within quotas, and adds four per day |
| `WorkerProperties.PlanForMonthCounts` | src/worker.js:3-113 | for any week test, including `MondayBreak` as written, a successful month over distinct names has counts for exactly the roster, none above its quota, summing to four times the month's workdays |
| `WorkerProperties.FirstMonthMeetsQuotas` | src/worker.js:16-99 | for any week test, including the one as written, a successful month without carried counts ends with every person's count exactly equal to their planned quota |
| `WorkerProperties.WorkdaysArePlanned` | src/worker.js:66-109 | every workday of the month is recorded in some week plan, in the cell of its weekday |
| `WorkerProperties.PlannedAreWorkdays` | src/worker.js:102 | every filled cell of the plan holds a workday of the month |
| `WorkerProperties.PlanForMonthFailsOnWorkday` | src/worker.js:88-90 | for any week test, including the one as written, a failed month names a workday of that month |
| `WorkerProperties.SmallRosterFails` | src/worker.js:88-90 | for any week test, with fewer than four people and at least one workday, the run fails on the first workday |
| `WorkerProperties.PlanTwoMonthsCounts` | src/worker.js:129-150 | for any week test, including the one as written, the chained run's first month meets its quotas exactly; the second month's quotas are at least the first month's counts and bound its counts; its counts sum to four per workday |
| `WorkerProperties.PlanTwoMonthsSound` | src/worker.js:129-150 | across the chained months, the first month meets its quotas; the second month's quotas are at least the first month's counts and bound its counts; its counts sum to its demand; its week plans are sound; its first week's Friday crew avoids the first month's last Friday crew |
| `Planner.GetWeekdaysInMonth` | src/App.jsx:56-69 | the days returned are exactly the month's Monday–Friday days, strictly ascending; there is no holiday exclusion |
| `Planner.TakeName` | src/App.jsx:152-159 | taking a name appends it to the crew, marks it used today, bumps its count and records the weekday |
| `Planner.MainLoop` | src/App.jsx:147-161 | the main loop gives the first `min(4, n)` of the sorted eligible list (see `MainOfDay`) |
| `Planner.FallbackLoop` | src/App.jsx:163-177 | the fallback loop tops the crew up from the fallback list, in order, to at most four |
| `Planner.InitialCounts` | src/App.jsx:114 | every person of `allPeople`, and nobody else, starts with count 0 |
| `Planner.PlanOneDay` | src/App.jsx:116-184 | one day's body gives the row and tally that `DayCrew`, `FullMainPass` and `ShortMainPass` characterise |
| `Planner.CreateMonthlyPlan` | src/App.jsx:98-188 | the whole loop gives the plan and counts that `MonthlyPlanSound` and `MonthlyMainPicksFair` characterise |
| `PlannerProperties.RangeIsClosedInterval` | src/App.jsx:71-81 | with both bounds present and valid, a date is in range iff `start <= d <= end`, inclusive at both ends |
| `PlannerProperties.InvertedRangeIsEmpty` | src/App.jsx:71-81 | a range whose start is after its end contains no date |
| `PlannerProperties.IncompleteRangeIsEmpty` | src/App.jsx:72-78 | a range with a missing, empty or invalid bound contains no date |
| `PlannerProperties.FindByNameFirst` | src/App.jsx:84-85 | the lookup finds nothing iff the name is absent; otherwise it finds the first entry with that name |
| `PlannerProperties.AvailabilityExact` | src/App.jsx:83-96 | a person is unavailable iff the first office entry or the first vacation entry with their name has a range containing the date |
| `PlannerProperties.FreshListsBlockNobody` | src/App.jsx:46-54 | lists freshly built from names block nobody on any date |
| `PlannerProperties.EntriesFromInput` | src/App.jsx:31-54 | building entries from the split input gives exactly the bulk names, each with empty bounds |
| `PlannerProperties.DateChangeFrame` | src/App.jsx:39-44 | the update keeps the length and every name; entries with another name are unchanged; a matching entry gets the value (empty becomes null) in the named field only |
| `PlannerProperties.DateChangeIdempotent` | src/App.jsx:39-44 | applying the same update twice is the same as applying it once |
| `PlannerProperties.FindAfterDateChange` | src/App.jsx:39-44 | after an update, the lookup of another name is unchanged, and the lookup of the name gives its old entry with the field set |
| `PlannerProperties.DateChangeKeepsOthers` | src/App.jsx:39-96 | changing one person's bound never changes anyone else's availability |
| `PlannerProperties.ClearingBoundsFrees` | src/App.jsx:39-96 | clearing a bound of a person's office and vacation entries makes them available on every date |
| `PlannerProperties.TrimExact` | src/App.jsx:34 | trimming removes exactly a leading and a trailing run of white space; the result starts and ends with non-white-space |
| `PlannerProperties.BulkNamesAreClean` | src/App.jsx:31-37 | every bulk name is non-empty, holds no newline or comma, and neither starts nor ends with white space |
| `PlannerProperties.SplitRunsSameNames` | src/App.jsx:31-37 | splitting on runs of separators yields the same names as splitting on each separator |
| `PlannerProperties.BulkNamesOfJoin` | src/App.jsx:31-37 | joining clean names with commas and bulk-adding the result gives the names back |
| `PlannerProperties.DedupExact` | src/App.jsx:106-112 | `allPeople` has no duplicates, has exactly the listed names, and keeps first-occurrence order |
| `PlannerProperties.MainOfDay` | src/App.jsx:147-161 | the main pass selects the first `min(4, n)` of the sorted eligible people, marks them used, and records each once |
| `PlannerProperties.FullMainPass` | src/App.jsx:147-164 | with four or more eligible people, the crew is the four least loaded and no fallback runs |
| `PlannerProperties.ShortMainPass` | src/App.jsx:163-177 | with fewer than four eligible people, the crew is all of them followed by the least-loaded available people not yet used, up to four |
| `PlannerProperties.DayCrew` | src/App.jsx:147-183 | a day's row has its date and weekday; the crew has at most four distinct people, all available; a crew under four holds everyone available; the tally records exactly the crew |
| `PlannerProperties.DayMainPicks` | src/App.jsx:122-161 | the crew starts with the main-pass picks; each is main-eligible and has a count no larger than any eligible person left out |
| `PlannerProperties.EligibleFair` | src/App.jsx:125-142 | a main-eligible person did not serve on the same weekday earlier in the month, and does not repeat a Friday→Monday or Monday→Tuesday pair with the previous row |
| `PlannerProperties.MonthlyPlanSound` | src/App.jsx:98-188 | the plan has one row per weekday of the month, in ascending date order, each with a sound crew; counts cover exactly `allPeople`, equal each person's rows, and sum to the crew places filled |
| `PlannerProperties.MonthlyMainPicksFair` | src/App.jsx:122-161 | in the month's plan, each day's main-pass picks have not held that weekday earlier, repeat no Friday→Monday or Monday→Tuesday pair, and had served no more days than any eligible person left out |

## Left out

- The React page: state hooks, JSX rendering, tables and event wiring (src/App.jsx:190-341). The list helpers and `createMonthlyPlan` return their results instead of calling `setList`, `setSchedule` and `setDutyCount`.
- The worker's messaging: destructuring of `e.data`, `postMessage`, and turning a thrown error into `{ error }` text (src/worker.js:115-155). Only the two-month chain is kept, as `Worker.PlanTwoMonths`; a failure is a `Failure(InfeasibleDay(date))` value.
- Day-name labels and error message text.
- Date strings, `Date`, `toISOString` and dayjs. Dates are ordinal day numbers, and holidays and absence dates are lists of them. The model assumes the code runs in UTC, where the local-time and UTC conversions (src/worker.js:22-24,34) agree. In any other zone one of them shifts the date by a day. East of UTC, say UTC+3, `toISOString` at src/worker.js:24 labels each day with the previous date; the Monday crew then goes to `weekPlan[-1]`, and the Friday rule never fires. None of this is modelled.
- Strict `YYYY-MM-DD` parsing of range bounds is a parameter `parse` of the greedy planner. The date being tested is always a formatted day, so it is taken as already parsed.
- The distribution of `Math.random()` used as a sort comparator (src/worker.js:95). The model assumes only that the pool is reordered by some permutation; it states nothing about fairness of the draw.
- The ISO week number computed and never used by the greedy planner (src/App.jsx:117).
- An empty roster has no separate error. The source divides by zero (src/worker.js:47) but never reads the result. The quota table is empty, so the run fails on the first workday, and a month without workdays gives an empty plan. The model reproduces this with a base quota of 0 and no `EmptyRoster` error.
- Duplicate names in a roster. JavaScript object keys would merge them. The run itself is modelled for any roster whose names are not `Object.prototype` property names (next line), but the lemmas about distinct crews, quota sums and count totals assume distinct names.
- Names that are `Object.prototype` property names. Both programs keep per-name tables in plain JavaScript objects, which inherit such keys; the model's maps and sets do not. So the model assumes no roster or person name is one of them. What the source does for them:
  - in the duty planner, `weekAssigned["__proto__"] = false` (src/worker.js:67-68) is ignored, so `weekAssigned[p]` at src/worker.js:79 reads the truthy prototype and a person named `__proto__` is never eligible; `Worker.Eligible` treats them like anyone else;
  - in the greedy planner, `lastWeekDuties[name] || []` (src/App.jsx:102,125) yields an inherited function or object for names such as `constructor`, `toString`, `valueOf` or `__proto__`, and `.includes` at src/App.jsx:126 then throws a `TypeError` on the first weekday that person is available; `Planner.CreateMonthlyPlan` returns a plan instead.
- `WorkerProperties.PlanForMonthSound`, `WorkerProperties.WeekSound`, `WorkerProperties.PlanTwoMonthsSound`, `WorkerProperties.WeekCounts`, `WorkerProperties.PlanForMonthCounts` and `WorkerProperties.PlanTwoMonthsCounts` assume the roster has no duplicate names.
- `WorkerProperties.PlanForMonthSound`, `WorkerProperties.WorkdaysArePlanned`, `WorkerProperties.PlannedAreWorkdays` and `WorkerProperties.PlanTwoMonthsSound` are stated for the corrected week test `CalendarWeekBreak`, and so is `WorkerProperties.MonthWeeks`, whose distinct weekdays fail as written. `WorkerProperties.WeekSound` requires a week of ascending weekdays. These are the lemmas about the cells of the week plans. As written (`MondayBreak`), a holiday Monday merges two calendar weeks. The second week's days then overwrite the first week's cells, so `WorkdaysArePlanned` fails for the program as written (see `MondayHolidayMergesWeeks`). Their count and quota parts hold for any week test: `WeekCounts`, `PlanForMonthCounts`, `FirstMonthMeetsQuotas` and `PlanTwoMonthsCounts` state them.
- Behaviours the model keeps as the code has them:
  - absence lists in the worker are exact dates, not ranges;
  - the greedy planner consults only the first office entry and the first vacation entry of a name;
  - the chained month's counts restart at 0, and the carried counts only raise its quotas;
  - the same-weekday rule of the greedy planner spans the whole month, despite the name `lastWeekDuties`.

## Findings

| source | as written | input that shows it | evidently intended | confidence | as-written member | corrected member |
|---|---|---|---|---|---|---|
| src/worker.js:36 | a new week starts only at a workday that is a Monday | a Monday that is a holiday: the Tuesday before it and the Tuesday after it land in one week, the once-per-week rule spans both calendar weeks, and the second Tuesday's crew overwrites the first in `weekPlan[1]` | a new week starts at the first workday of each calendar week | high (not executed) | `WorkerProperties.MondayHolidayMergesWeeks` | `WorkerProperties.CalendarWeeksPartition` |
