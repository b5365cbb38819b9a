# ai-todo-manager in Dafny

A model of the deterministic logic inside the ai-todo-manager web app, a
Next.js to-do list backed by Supabase, with Google Gemini for natural-language
entry and summaries. The model covers:

- the statistics that the summary endpoint computes before it calls the
  language model (`app/api/ai-summary/route.ts`);
- the input checks and answer clean-up of the parse endpoint
  (`app/api/ai-parse-todo/route.ts`);
- the client list logic: filter, comparator, stable sort and status split
  (`components/todo/TodoList.tsx`);
- the dashboard's list and filter updates (`app/page.tsx`);
- the toolbar handlers (`components/layout/Toolbar.tsx`);
- the form's schema, submission, error messages and category-matching
  cascade (`components/todo/TodoForm.tsx`);
- the card's labels (`components/todo/TodoCard.tsx`);
- the sign-up and login rules (`app/signup/page.tsx`, `app/login/page.tsx`);
- the header's names (`components/layout/Header.tsx`);
- the route guard (`components/providers/AuthProvider.tsx`);
- the summary panel's state (`components/ai/AISummary.tsx`).

The model follows the source's own form:

- Pure code becomes functions with lemmas beside them.
- A component whose fields change step by step becomes a class with
  `modifies` clauses:
  - `MainPage.Page`;
  - `AuthProvider.AuthState`;
  - `AISummary.SummaryPanel`;
  - `TodoForm.TodoFormState`;
  - `ParseRoute.ParsedTodo`, which is the object that `postprocessResponse`
    overwrites in place.
- A loop becomes a method with its invariants, proved against a
  specification function:
  - `SummaryRoute.CountByCategory`;
  - `SummaryRoute.FillRates`;
  - `SummaryRoute.ComputeTimeDistribution`;
  - `TodoForm.KeywordMatch`;
  - `StableSort.SortInPlace`, a stable insertion sort in place; any stable `Array.prototype.sort` gives the same result under this comparator.

Files and modules:

| file | module | source |
|---|---|---|
| common.dfy | `Common` | JavaScript built-ins: `filter`, `find`, `includes`, `trim`, `split`, `toLowerCase`, `parseInt`, `toString`, `Math.round` of a percentage |
| types.dfy | `Types` | lib/types.ts |
| local_time.dfy | `LocalTime` | local midnight, hour and weekday on a fixed-offset zone; the UTC calendar and the text of `toISOString` |
| stable_sort.dfy | `StableSort` | a stable insertion sort; any stable `Array.prototype.sort` gives the same result under this comparator |
| summary_route.dfy | `SummaryRoute` | app/api/ai-summary/route.ts |
| parse_route.dfy | `ParseRoute` | app/api/ai-parse-todo/route.ts |
| todo_list.dfy | `TodoList` | components/todo/TodoList.tsx |
| main_page.dfy | `MainPage` | app/page.tsx |
| toolbar.dfy | `Toolbar` | components/layout/Toolbar.tsx |
| todo_form.dfy | `TodoForm` | components/todo/TodoForm.tsx |
| todo_card.dfy | `TodoCard` | components/todo/TodoCard.tsx |
| signup_page.dfy | `SignupPage` | app/signup/page.tsx |
| login_page.dfy | `LoginPage` | app/login/page.tsx |
| header.dfy | `Header` | components/layout/Header.tsx |
| auth_provider.dfy | `AuthProvider` | components/providers/AuthProvider.tsx |
| ai_summary.dfy | `AISummary` | components/ai/AISummary.tsx |

Conventions:

- Timestamps are integer milliseconds. A due date or creation time stored as
  an ISO 8601 string is carried as the instant it denotes. The form's due-date
  field is text: `toISOString().slice(0, 16)` of that instant
  (`LocalTime.IsoMinuteText`).
- The host time zone is a `Zone` with a fixed offset from UTC. Local
  midnight, local hour and weekday are computed from it. The current time
  `now` is always a parameter.
- `undefined` and `null` are `None`.
- A thrown error that is not an `Error` has message `None`, so the
  `instanceof Error ? message : fallback` pattern becomes
  `Common.ErrorText`.
- Each outcome of a network or store call is a parameter of the handler
  that awaits it.

Some behaviours of the code are worth stating up front:

- The week's upper bound is Saturday 00:00. The code tests `due <= endOfWeek`
  against Saturday's midnight (app/api/ai-summary/route.ts:41-47), so a task
  due later on Saturday is outside the week
  (`SummaryRoute.SaturdayAfterMidnightExcluded`).
- The store query of the summary route selects neither `completed_at` nor
  `updated_at`, so the on-time rate is always 0
  (`SummaryRoute.OnTimeRateWithoutTimestamps`).
- The form shows a due date in UTC. `toISOString().slice(0, 16)` fills the
  `datetime-local` field (components/todo/TodoForm.tsx:70 and :128-131), so on
  a host east of UTC the hour shown is not the local hour
  (`LocalTime.LocalHourIsShiftedUtcHour`).
- The parse route reads the weekday of `koreaTime` with the host's `getDay()`
  (app/api/ai-parse-todo/route.ts:158-167). That is the Korean weekday only on
  a UTC host; see Findings.

## Model

| member | source | states |
|---|---|---|
| Types.ParsePriority | lib/types.ts:6 | exactly "high", "medium" and "low" are priorities, each read back as the priority of that name |
| Types.PriorityRoundTrip | lib/types.ts:6 | reading a priority's stored name gives the priority back |
| LocalTime.LocalMidnight | app/api/ai-summary/route.ts:25 | the local midnight of `t` is a midnight at most one day before `t` and no later than `t` |
| LocalTime.LocalHour | app/api/ai-summary/route.ts:139 | `getHours` lies in 0..23, and `t` falls in that hour of its local day |
| LocalTime.Weekday | app/api/ai-summary/route.ts:40 | `getDay` lies in 0..6 |
| LocalTime.MidnightOfDay | app/api/ai-summary/route.ts:34-35 | every instant of a local day has that day's midnight as its date-only value |
| LocalTime.ShiftDays | app/api/ai-summary/route.ts:39-42 | `setDate(getDate() + k)` on a midnight is again a midnight, exactly `k` days on, with the weekday moved by `k` |
| LocalTime.WeekdayOfMidnight | app/api/ai-summary/route.ts:39-40 | an instant and its local midnight have the same weekday |
| LocalTime.ShiftInstant | app/api/ai-parse-todo/route.ts:159-167 | moving any instant by `k` days moves its midnight by `k` days and its weekday by `k` |
| LocalTime.UtcDayShift | app/api/ai-parse-todo/route.ts:146-168 | moving an instant by whole days moves its `toISOString` calendar day by as many days |
| LocalTime.UtcWeekdayShift | app/api/ai-parse-todo/route.ts:159-167 | moving a UTC day `k` days on moves its weekday by `k`, modulo 7 |
| LocalTime.UtcHour | components/todo/TodoForm.tsx:130 | the UTC hour that `toISOString` writes lies in 0..23 |
| LocalTime.UtcMinute | components/todo/TodoForm.tsx:130 | the UTC minute that `toISOString` writes lies in 0..59 |
| LocalTime.MonthsFillYear | components/todo/TodoForm.tsx:130 | the twelve months of a Gregorian year add up to its 365 or 366 days |
| LocalTime.YearAndDay | components/todo/TodoForm.tsx:130 | counting whole years from a given year ends on a year and a day index inside that year |
| LocalTime.MonthAndDay | components/todo/TodoForm.tsx:130 | counting whole months ends on a month 1..12 and a day within that month's length |
| LocalTime.CivilFromDays | components/todo/TodoForm.tsx:130 | the UTC calendar date of a day number has a month 1..12 and a day within that month's length |
| LocalTime.CivilEpoch | components/todo/TodoForm.tsx:130 | day 0 is 1 January 1970 and day 31 is 1 February 1970 |
| LocalTime.Padded | components/todo/TodoForm.tsx:130 | a field of `toISOString` has exactly its width in decimal digits, and reads back as its number when the number fits |
| LocalTime.YearText | components/todo/TodoForm.tsx:130 | the year has four digits for 0..9999, and is longer outside that range |
| LocalTime.IsoMinuteFields | components/todo/TodoForm.tsx:128-131 | for years 0..9999 the minute text is `YYYY-MM-DDTHH:mm`: `-`, `-`, `T` and `:` at positions 4, 7, 10 and 13, and the fields read back with `parseInt` as the UTC year, month, day, hour and minute of the instant |
| LocalTime.IsoMinuteDropsSeconds | components/todo/TodoForm.tsx:130 | `slice(0, 16)` drops the seconds and milliseconds: an instant and the start of its minute give the same text |
| LocalTime.LocalHourIsShiftedUtcHour | components/todo/TodoForm.tsx:130 | on a host a whole number of hours east of UTC, less than a day, the hour in the field is the local hour moved back by the offset, and never the local hour |
| Common.RoundPercent | app/api/ai-summary/route.ts:58 | the rounded percentage is 0 for an empty group or no part, 100 for all of it, and at most 100 when part ≤ total |
| Common.RoundPercentNearest | app/api/ai-summary/route.ts:58 | the percentage is the nearest integer to 100·part/total, with halves rounded up as `Math.round` does |
| Common.FilterIsSubsequence | components/todo/TodoList.tsx:48 | `Array.prototype.filter` keeps some of the elements, in their order |
| Common.FilterMembers | components/todo/TodoList.tsx:48 | `filter` keeps exactly the elements that pass the test |
| Common.FilterPartition | components/todo/TodoList.tsx:110-112 | filtering by a test and by its negation splits the input, counted and as a multiset |
| Common.FirstWhere | components/todo/TodoForm.tsx:143-145 | `find` gives nothing exactly when no element passes, and otherwise an element that passes |
| Common.FirstWhereIsFirst | components/todo/TodoForm.tsx:143-145 | the element `find` gives is the first one that passes |
| Common.IntToString | components/todo/TodoCard.tsx:177 | an integer's decimal text is never empty |
| Common.TrimStartKeepsText | app/api/ai-parse-todo/route.ts:24 | removing leading whitespace keeps every other character, in order |
| Common.TrimEndKeepsText | app/api/ai-parse-todo/route.ts:24 | removing trailing whitespace keeps every other character, in order |
| Common.TrimKeepsText | app/api/ai-parse-todo/route.ts:24 | `trim()` removes only whitespace: the other characters stay, in order |
| Common.TrimEmptyIffAllSpace | components/todo/TodoForm.tsx:80 | `trim()` gives the empty string exactly for a string made only of whitespace |
| Common.Split | components/layout/Header.tsx:34 | `split` gives at least one piece, and no piece holds the separator |
| Common.JoinSplit | components/layout/Header.tsx:34 | joining the pieces of `split` with the separator gives the string back |
| Common.SplitConcat | components/layout/Toolbar.tsx:125 | splitting `a + sep + b`, where `a` has no separator, gives `a` followed by the pieces of `b` |
| Common.SplitHead | components/layout/Header.tsx:42 | the first piece of `split` is the prefix of the string up to the first separator, or all of it |
| Common.Lower | components/todo/TodoList.tsx:51-54 | `toLowerCase` keeps the length and lower-cases each character |
| Common.LowerTwice | components/todo/TodoList.tsx:51-54 | lower-casing is idempotent |
| Common.LowerOfUpper | components/todo/TodoList.tsx:51-54 | lower-casing undoes an upper-casing |
| Common.Upper | components/layout/Header.tsx:34 | `toUpperCase` keeps the length and upper-cases each character |
| Common.Trim | app/api/ai-parse-todo/route.ts:24 | `trim()` leaves no whitespace at either end and never lengthens the string |
| Common.LeadingDigits | components/todo/TodoForm.tsx:214 | the digits `parseInt` reads are the longest run of decimal digits at the front |
| Common.ParseInt | components/todo/TodoForm.tsx:214 | `parseInt` is NaN exactly when no digit follows the leading blanks and sign |
| Common.NatToString | components/todo/TodoForm.tsx:181 | the decimal text of a natural number is a non-empty string of digits whose value is the number |
| Common.IntToStringRoundTrip | components/todo/TodoForm.tsx:181-214 | `parseInt(n.toString())` is `n` for every integer, negative ones included |
| StableSort.LessOrder | components/todo/TodoList.tsx:85-104 | the order on sort keys, with both infinities, is a strict total order |
| StableSort.SortSpec | components/todo/TodoList.tsx:85-104 | the stable sort keeps the length of its input |
| StableSort.InsertSorted | components/todo/TodoList.tsx:85-104 | inserting into a sorted list keeps it sorted |
| StableSort.InsertPermutes | components/todo/TodoList.tsx:85-104 | inserting adds exactly the one element |
| StableSort.InsertStable | components/todo/TodoList.tsx:85-104 | the inserted element goes after every element with its key already in the list |
| StableSort.InsertShape | components/todo/TodoList.tsx:85-104 | one insertion step puts the element after every key that is not greater and before every greater one |
| StableSort.SortSpecSorted | components/todo/TodoList.tsx:85-104 | the sort leaves no key smaller than one before it |
| StableSort.SortSpecPermutes | components/todo/TodoList.tsx:85-104 | the sort is a permutation of its input |
| StableSort.SortSpecStable | components/todo/TodoList.tsx:85-104 | elements with equal keys keep their relative input order |
| StableSort.SortInPlace | components/todo/TodoList.tsx:85-104 | the in-place insertion sort leaves the array holding the stable sort of its old contents |
| StableSort.InsertLast | components/todo/TodoList.tsx:85-104 | one pass of the inner loop inserts `a[i]` into the sorted prefix and leaves the rest of the array alone |
| SummaryRoute.ValidateInput | app/api/ai-summary/route.ts:16-20 | exactly "today" and "week" pass; anything else, missing or empty included, fails with the period message |
| SummaryRoute.TodayFilterExact | app/api/ai-summary/route.ts:29-36 | the "today" filter is a subsequence of the input that keeps exactly the dated tasks whose local day is today's |
| SummaryRoute.WeekFilterExact | app/api/ai-summary/route.ts:37-48 | the "week" filter is a subsequence of the input that keeps exactly the dated tasks due from Sunday 00:00 to Saturday 00:00 inclusive |
| SummaryRoute.WeekBounds | app/api/ai-summary/route.ts:39-42 | the week starts at a Sunday midnight no later than now, now is less than seven days later, and the upper bound falls on Saturday |
| SummaryRoute.SaturdayAfterMidnightExcluded | app/api/ai-summary/route.ts:41-47 | a task due later on Saturday than 00:00 is outside the week |
| SummaryRoute.UndatedNeverKept | app/api/ai-summary/route.ts:32-45 | neither period keeps a task without a due date |
| SummaryRoute.CategoryCountsMeaning | app/api/ai-summary/route.ts:148-156 | the category `reduce` makes one group per label that occurs, counting its tasks and its completed tasks; an absent label counts nothing |
| SummaryRoute.CategoryKeys | app/api/ai-summary/route.ts:148-152 | the reduce makes a group for exactly the labels that occur |
| SummaryRoute.AbsentLabelUncounted | app/api/ai-summary/route.ts:149 | a label that no task carries counts no task and no completion |
| SummaryRoute.CategoryGroupCounts | app/api/ai-summary/route.ts:150-155 | each group holds the number of tasks with its label and of those completed |
| SummaryRoute.CountAppend | app/api/ai-summary/route.ts:57 | counting over one more task adds one exactly when the task passes the test |
| SummaryRoute.TallyAt | app/api/ai-summary/route.ts:149-155 | one reduce step creates the task's group if needed, bumps only that group, and leaves every other group alone |
| SummaryRoute.LabelsAppend | app/api/ai-summary/route.ts:149 | one more task adds exactly its label to the labels that occur |
| SummaryRoute.MostPopulated | app/api/ai-summary/route.ts:165-166 | the chosen bucket has the largest count, and with the stable sort it is the first such bucket in morning-afternoon-evening-night order |
| SummaryRoute.Titles | app/api/ai-summary/route.ts:181 | `map(todo => todo.title)` keeps the length and takes each title in place |
| SummaryRoute.ComputeTimeDistribution | app/api/ai-summary/route.ts:129-145 | the `forEach` histogram equals the four bucket counts of the tasks |
| SummaryRoute.HistogramStep | app/api/ai-summary/route.ts:137-144 | one more task bumps the bucket of its due hour if it has a due date, and nothing otherwise |
| SummaryRoute.CountByCategory | app/api/ai-summary/route.ts:148-156 | the `reduce` loop computes the category groups of the tasks |
| SummaryRoute.FillRates | app/api/ai-summary/route.ts:80-162 | the `forEach` over the keys gives every group its rounded rate and changes nothing else |
| SummaryRoute.GenerateAnalysisData | app/api/ai-summary/route.ts:55-183 | `generateAnalysisData` returns every field of the analysis of its tasks |
| SummaryRoute.Rates | app/api/ai-summary/route.ts:56-126 | the completed count is at most the total and both rates lie in 0..100; the overall rate is 0 with no task and 100 when every task is done, and the on-time rate is 0 with no completed dated task; each equals its field of the analysis |
| SummaryRoute.Deadlines | app/api/ai-summary/route.ts:93-181 | the overdue, due-today and due-tomorrow counts of now's local day add up to at most the total; the urgent list holds min(5, overdue + due today) titles, the overdue ones first and then the due-today ones, each in input order |
| SummaryRoute.PriorityGroups | app/api/ai-summary/route.ts:61-90 | the three priority groups with their rates filled in, and the distribution of their sizes |
| SummaryRoute.CategoryGroups | app/api/ai-summary/route.ts:148-162 | the category groups with their rates filled in |
| SummaryRoute.PriorityStatsMeaning | app/api/ai-summary/route.ts:61-83 | each priority has a group counting its tasks and their completions, with completed ≤ total and the rounded rate ≤ 100 |
| SummaryRoute.CategoryStatsMeaning | app/api/ai-summary/route.ts:148-162 | the groups are exactly the occurring labels, each counting its tasks and their completions, with completed ≤ total and the rounded rate ≤ 100 |
| SummaryRoute.RatesAreBounded | app/api/ai-summary/route.ts:56-162 | completed ≤ total overall and in every group, and every rate, the on-time rate included, lies in 0..100 |
| SummaryRoute.RatesAreRoundedPercentages | app/api/ai-summary/route.ts:58-161 | the overall, per-priority and per-category rates are all the rounded percentage of completions over members, and 0 with no task |
| SummaryRoute.DeadlineSetsDisjoint | app/api/ai-summary/route.ts:98-116 | overdue, due today and due tomorrow are pairwise exclusive and never hold of a completed or undated task, so their counts add up to at most the total |
| SummaryRoute.DeadlineRowsExclusive | app/api/ai-summary/route.ts:98-116 | for any day, no task is in two of the overdue, due-that-day and due-next-day selections, and a completed or undated task is in none |
| SummaryRoute.DeadlineCountsAt | app/api/ai-summary/route.ts:98-116 | for any day, the three deadline counts add up to at most the number of tasks |
| SummaryRoute.DeadlineFields | app/api/ai-summary/route.ts:168-182 | the analysis reports the number of tasks and the three deadline counts of today's local day |
| SummaryRoute.UrgentTasksAt | app/api/ai-summary/route.ts:181 | for any day, the urgent list is the overdue titles and then the titles due that day, in input order, cut at five |
| SummaryRoute.DeadlinesExclusive | app/api/ai-summary/route.ts:98-116 | a task due before today's midnight is not due today or tomorrow |
| SummaryRoute.DeadlineCounts | app/api/ai-summary/route.ts:98-176 | three pairwise exclusive selections count at most all tasks together |
| SummaryRoute.OverdueMeaning | app/api/ai-summary/route.ts:98-102 | overdue means open, dated and due strictly before today's local midnight |
| SummaryRoute.OnTimeRateBounds | app/api/ai-summary/route.ts:119-126 | the on-time rate lies in 0..100, and is 0 when no task is both completed and dated |
| SummaryRoute.OnTimeRateWithoutTimestamps | app/api/ai-summary/route.ts:119-126 | without `completed_at` and `updated_at`, which the query never selects, no completion counts as on time and the rate is 0 |
| SummaryRoute.BucketsSumToDated | app/api/ai-summary/route.ts:136-145 | the four bucket counts add up to the number of dated tasks |
| SummaryRoute.BucketRanges | app/api/ai-summary/route.ts:140-143 | hours 6-11 are morning, 12-17 afternoon, 18-23 evening and 0-5 night |
| SummaryRoute.UrgentTasksShape | app/api/ai-summary/route.ts:181 | the urgent list is the overdue titles, then the due-today titles, in input order, cut at five |
| SummaryRoute.HighPriorityScenario | app/api/ai-summary/route.ts:61-83 | two high-priority tasks, one of them done, give the high group 2 tasks, 1 completed, rate 50 |
| SummaryRoute.HandleSummary | app/api/ai-summary/route.ts:185-289 | in the route's order a missing key gives 500, a body that is not JSON 400, a bad period 400, no user 401 and a failed query 500; a request fails exactly when a check fails, gets the canned reply exactly when accepted with an empty selection, and otherwise goes to the model with its period and the analysis of its selection |
| SummaryRoute.EmptyPeriodReply | app/api/ai-summary/route.ts:276-286 | an accepted request whose selection is empty gets the canned reply with the period's own message, "오늘 …" for today and "이번주 …" for the week, and no urgent task |
| SummaryRoute.BadPeriodRejected | app/api/ai-summary/route.ts:215-226 | a period other than the two tokens is refused with 400 and the validation message |
| SummaryRoute.ModelFailure | app/api/ai-summary/route.ts:399-436 | in the route's order: key error 401, network error 503, a "rate limit" or "quota" message 429, otherwise 500 with the message or a default |
| ParseRoute.HasContentMeaning | app/api/ai-parse-todo/route.ts:29 | the content test holds exactly when some character is Hangul, a Latin letter or a digit |
| ParseRoute.CollapseSpaces | app/api/ai-parse-todo/route.ts:25 | `replace(/\s+/g, ' ')` never lengthens the text, keeps whitespace at each end as it was, leaves only plain spaces and never two whitespace characters in a row; what it keeps is stated by `ParseRoute.CollapseKeepsText` and `ParseRoute.CollapseJoinsWords` |
| ParseRoute.CollapseKeepsText | app/api/ai-parse-todo/route.ts:25 | collapsing rewrites only whitespace: the input's other characters stay, in order, and no other character appears |
| ParseRoute.Word | app/api/ai-parse-todo/route.ts:25 | the first word is the longest prefix without whitespace |
| ParseRoute.Words | app/api/ai-parse-todo/route.ts:25 | the words are non-empty and hold no whitespace, and a text starting with a non-space starts with its first word |
| ParseRoute.WordsTrimStart | app/api/ai-parse-todo/route.ts:24 | leading whitespace does not change the words |
| ParseRoute.WordsTrimEnd | app/api/ai-parse-todo/route.ts:24 | trailing whitespace does not change the words |
| ParseRoute.CollapseWord | app/api/ai-parse-todo/route.ts:25 | collapsing copies a leading word unchanged and goes on after it |
| ParseRoute.CollapseJoinsWords | app/api/ai-parse-todo/route.ts:25 | on text without whitespace at either end, `replace(/\s+/g, ' ')` gives the words joined by single spaces |
| ParseRoute.NormalizeJoinsWords | app/api/ai-parse-todo/route.ts:23-26 | the preprocessed text is exactly the input's words, in order, joined by single spaces |
| ParseRoute.HasContentAppend | app/api/ai-parse-todo/route.ts:29 | a concatenation has content exactly when one of its parts has |
| ParseRoute.TrimStartKeepsContent | app/api/ai-parse-todo/route.ts:24 | removing leading whitespace keeps the content |
| ParseRoute.TrimEndKeepsContent | app/api/ai-parse-todo/route.ts:24 | removing trailing whitespace keeps the content |
| ParseRoute.TrimKeepsContent | app/api/ai-parse-todo/route.ts:24 | `trim()` keeps the content |
| ParseRoute.CollapseKeepsContent | app/api/ai-parse-todo/route.ts:25 | collapsing whitespace keeps the content |
| ParseRoute.NormalizeShape | app/api/ai-parse-todo/route.ts:23-26 | the preprocessed text has no whitespace at either end, no two whitespace characters in a row, only plain spaces, the input's non-whitespace characters in their order, and content exactly when the input has |
| ParseRoute.ValidateAndPreprocessInput | app/api/ai-parse-todo/route.ts:7-40 | accepts exactly a string of raw length 2..500 with content whose preprocessed form is at least 2 long; each failure has its own message in the code's order; an accepted text is trimmed, collapsed, 2..500 long and has content |
| ParseRoute.NoContentExample | app/api/ai-parse-todo/route.ts:29-32 | punctuation alone is refused for lack of content |
| ParseRoute.ParsedTodo.Postprocess | app/api/ai-parse-todo/route.ts:43-86 | `postprocessResponse` leaves the object holding the cleaned-up fields of its old value, with today's local midnight as the clamp |
| ParseRoute.ParsedTodo.FixTitle | app/api/ai-parse-todo/route.ts:46-56 | cuts an over-long title and defaults a missing one, touching no other field |
| ParseRoute.ParsedTodo.ClampDate | app/api/ai-parse-todo/route.ts:58-68 | replaces a past due date by today's midnight, touching no other field |
| ParseRoute.ParsedTodo.FixPriority | app/api/ai-parse-todo/route.ts:70-73 | defaults a missing or unknown priority, touching no other field |
| ParseRoute.ParsedTodo.FixCategory | app/api/ai-parse-todo/route.ts:75-78 | defaults a missing or unknown category, touching no other field |
| ParseRoute.ParsedTodo.FixDescription | app/api/ai-parse-todo/route.ts:80-83 | cuts an over-long description, touching no other field |
| ParseRoute.ParsedTodo.constructor | app/api/ai-parse-todo/route.ts:274 | the object holds the model's answer as given |
| ParseRoute.TitleRules | app/api/ai-parse-todo/route.ts:47-56 | the title ends up 1..120 long; missing or empty becomes '할일'; over 120 becomes its first 117 characters and "...", 120 in all; 1..120 is kept |
| ParseRoute.DescriptionRules | app/api/ai-parse-todo/route.ts:81-83 | a description over 2000 becomes its first 1997 characters and "...", 2000 in all; any other, and an absent one, is kept |
| ParseRoute.DueDateRules | app/api/ai-parse-todo/route.ts:59-68 | a due date before today's midnight becomes that midnight, a later or equal one is kept, an absent one stays absent, and the result is never in the past |
| ParseRoute.DefaultRules | app/api/ai-parse-todo/route.ts:71-78 | a priority outside the three becomes 'medium' and a category outside the four becomes '개인'; allowed values are kept |
| ParseRoute.PostprocessIdempotent | app/api/ai-parse-todo/route.ts:43-86 | cleaning up a cleaned-up answer changes nothing |
| ParseRoute.DaysUntil | app/api/ai-parse-todo/route.ts:160-167 | the offset to the next target weekday lies in 1..7, lands on the target, passes no earlier target day, and is 7 exactly when today is the target |
| ParseRoute.DateAnchors | app/api/ai-parse-todo/route.ts:142-168 | today is the UTC day of now plus nine hours, tomorrow and the day after are +1 and +2, and Friday and Monday are today plus their weekday offsets |
| ParseRoute.AnchorsLandOnTarget | app/api/ai-parse-todo/route.ts:158-168 | the Friday and Monday anchors fall on a Friday and a Monday within 1..7 days |
| ParseRoute.AnchorsOnUtcHost | app/api/ai-parse-todo/route.ts:142-168 | on a UTC host the day numbers sent to the model for Friday and Monday are a Friday and a Monday, and all five anchors are the intended ones |
| ParseRoute.FridayAnchorOnKoreanHost | app/api/ai-parse-todo/route.ts:158-161 | on a host at UTC+9, at 20:00 on a Thursday in Korea, `getDay()` already reads Friday, so "this Friday" is sent as the next Thursday |
| ParseRoute.IntendedAnchors | app/api/ai-parse-todo/route.ts:142-168 | the anchors as the route's comments intend them: today is the Korean calendar day, tomorrow and the day after are +1 and +2, and Friday and Monday are the first such days after today, at most seven days on |
| ParseRoute.ModelFailure | app/api/ai-parse-todo/route.ts:291-338 | in the route's order: key error 401, network error 503, "rate limit" or "quota" 429, "timeout" 408, otherwise 500 with the message or a default |
| ParseRoute.RequestFailure | app/api/ai-parse-todo/route.ts:99-139 | the request reaches the model exactly when the key is set, the body is JSON and the text validates; a validation failure is a 400 with its message |
| TodoList.OverdueFalseDropsUndated | components/todo/TodoList.tsx:74-79 | with `is_overdue: false` the code as written drops an open undated todo, which the corrected test keeps |
| TodoList.AsWrittenAgreesUnlessFalse | components/todo/TodoList.tsx:74-79 | the written and corrected filters agree whenever the overdue flag is absent or true |
| TodoList.FilterAgreesUnlessFalse | components/todo/TodoList.tsx:48-82 | with the overdue flag absent or `true`, the code's filter and the corrected one keep the same list |
| TodoList.OverdueFilterMeaning | components/todo/TodoList.tsx:74-79 | with the overdue flag set, a todo passes exactly when being overdue (open, dated, due before now) equals the flag |
| TodoList.FilterKeepsExactly | components/todo/TodoList.tsx:48-82 | the filtered list is a subsequence whose todos pass every active test, and every input todo that passes them all is kept |
| TodoList.NoFiltersKeepAll | components/todo/TodoList.tsx:48-82 | with no active filter the list is kept whole |
| TodoList.SearchIgnoresCase | components/todo/TodoList.tsx:50-56 | the search ignores the query's case: the query, its lower-cased and its upper-cased form keep the same todos; a title hit alone passes |
| TodoList.CompareIsRankOrder | components/todo/TodoList.tsx:88-103 | the comparator's sign is the order of the two todos' ranks, with an undated todo at +∞ |
| TodoList.SortedByComparator | components/todo/TodoList.tsx:85-104 | in the sorted list no later todo compares below an earlier one |
| TodoList.SortPermutes | components/todo/TodoList.tsx:85-104 | sorting neither adds nor loses a todo |
| TodoList.SortIsStable | components/todo/TodoList.tsx:85-104 | todos that compare equal keep their relative order |
| TodoList.FilteredAndSortedTodos | components/todo/TodoList.tsx:47-107 | the result is the stable sort, by the comparator, of the filtered todos; whenever the overdue flag is not `false` it is also the sort of the list the code's own filter keeps |
| TodoList.PrioritySortOrder | components/todo/TodoList.tsx:89-103 | ascending by priority puts low before medium before high, and descending reverses that |
| TodoList.UndatedSortPosition | components/todo/TodoList.tsx:93-103 | ascending by due date puts undated todos last, and descending puts them first |
| TodoList.UndatedCompareEqual | components/todo/TodoList.tsx:94-96 | two undated todos compare equal by due date |
| TodoList.StatusPartition | components/todo/TodoList.tsx:110-112 | pending and completed split the sorted list, as a multiset and in order |
| TodoList.OverdueSublist | components/todo/TodoList.tsx:113-115 | overdue is an ordered part of pending, holding exactly its overdue todos |
| MainPage.ReplaceById | app/page.tsx:95-97 | the mapped list keeps its length |
| MainPage.ReplaceByIdMeaning | app/page.tsx:95-113 | replacing puts the new todo at every index whose id matches and leaves every other element where it was |
| MainPage.RemoveByIdMeaning | app/page.tsx:126 | removing drops every todo with the id and keeps the others in order |
| MainPage.RemoveAbsentId | app/page.tsx:126 | removing an id that no todo has changes nothing |
| MainPage.Overlay | app/page.tsx:154 | a field absent from the patch keeps its old value, and a present one takes the patch's value |
| MainPage.MergeLaws | app/page.tsx:153-155 | merging an empty patch changes nothing, and merging the same patch twice is merging it once |
| MainPage.StatsConsistent | app/page.tsx:62-69 | completed and pending add up to the total, and overdue is at most pending |
| MainPage.CompletionPercentBounds | app/page.tsx:270 | the shown percentage is 100·completed/total rounded half up, at most 100, and 0 for an empty list |
| MainPage.Page.constructor | app/page.tsx:24-31 | the page starts with no todos, no filters, no todo being edited, the form closed and no error |
| MainPage.Page.CreateTodo | app/page.tsx:77-87 | a created todo goes first, with the rest unchanged in order, the form closed and the error cleared; a failure keeps the list and shows its message |
| MainPage.Page.UpdateTodo | app/page.tsx:90-105 | with no todo being edited nothing changes; otherwise the todos with its id are replaced and editing ends, or the failure's message is shown |
| MainPage.Page.ToggleComplete | app/page.tsx:108-119 | the todos with the id are replaced by the returned row, or the failure's message is shown |
| MainPage.Page.DeleteTodo | app/page.tsx:122-133 | without confirmation nothing changes; otherwise every todo with the id is removed, or the failure's message is shown |
| MainPage.Page.HandleSearch | app/page.tsx:148-150 | only the search field of the filters changes |
| MainPage.Page.HandleFilterChange | app/page.tsx:153-155 | the given fields overlay the filters and the others are kept |
| MainPage.Page.SetFilters | app/page.tsx:295-311 | the filters become exactly the given record |
| Toolbar.SearchChange | components/layout/Toolbar.tsx:28-30 | only the search changes; an empty search becomes undefined and any other is kept |
| Toolbar.PriorityFilterChange | components/layout/Toolbar.tsx:33-38 | only the priority changes; "all" clears it, and a priority name sets that priority |
| Toolbar.StatusFilterChange | components/layout/Toolbar.tsx:41-65 | only the two status flags change |
| Toolbar.StatusTable | components/layout/Toolbar.tsx:41-65 | "completed", "pending", "overdue" and any other value set the two flags as the switch does, and leave search, priority and category alone |
| Toolbar.ActiveFilterCount | components/layout/Toolbar.tsx:81-83 | the count is at most 5, and 0 exactly when no field is set other than possibly an empty search |
| Toolbar.ActiveFilterFacts | components/layout/Toolbar.tsx:76-83 | no filter is active after clearing, `is_completed: false` counts, and clearing the search never adds to the count |
| Toolbar.StatusRoundTrip | components/layout/Toolbar.tsx:180-188 | for each of the four options, the select shows again the value just chosen |
| Toolbar.StatusOtherShowsAll | components/layout/Toolbar.tsx:180-188 | any other value shows "all" |
| Toolbar.SortRoundTrip | components/layout/Toolbar.tsx:123-138 | splitting `${key}-${direction}` on '-' gives back the key and the direction of all six options |
| Toolbar.KeyNameRoundTrip | components/layout/Toolbar.tsx:68-72 | each sort key's text is read back as that key |
| Toolbar.DirectionNameRoundTrip | components/layout/Toolbar.tsx:68-72 | each direction's text is read back as that direction |
| TodoForm.TitleError | components/todo/TodoForm.tsx:26 | a title is accepted exactly when 1..120 long; empty gets the required message and over 120 the length message |
| TodoForm.DescriptionError | components/todo/TodoForm.tsx:27 | a description is accepted exactly when at most 2000 long |
| TodoForm.FormValidBounds | components/todo/TodoForm.tsx:25-31 | the form is valid exactly when the title is 1..120 long and the description at most 2000 |
| TodoForm.DefaultValues | components/todo/TodoForm.tsx:67-73 | a new form is empty with priority medium; an edited todo gives its title and priority, its description or "", its due date as the UTC minute text or "", and its category id as text that `parseInt` reads back, or "" |
| TodoForm.EditUnchangedSubmitsTodo | components/todo/TodoForm.tsx:67-73 | submitting an edited todo's form unchanged sends its title, priority and category id, its description unless empty, and its due date as the UTC minute text |
| TodoForm.ToSubmitData | components/todo/TodoForm.tsx:207-215 | title and priority are passed as they are; an empty description, due date or category id becomes undefined; a non-empty description or due date is kept, and a non-empty category id becomes its `parseInt` value (NaN as none) |
| TodoForm.SubmitCategoryRoundTrip | components/todo/TodoForm.tsx:181-214 | a category id written into the form as `id.toString()` is submitted as that id |
| TodoForm.ParseErrorMessage | components/todo/TodoForm.tsx:94-110 | 400 gets "입력 오류: " before the server error; 429, 503 and 408 get fixed messages; any other status shows the server error or a default |
| TodoForm.ParseErrorNeverEmpty | components/todo/TodoForm.tsx:94-110 | the message is never empty and shows the server's text whenever the status has no fixed message |
| TodoForm.BlankInputSkipsRequest | components/todo/TodoForm.tsx:80 | no parse request is sent exactly when the input is only whitespace |
| TodoForm.MatchCategory | components/todo/TodoForm.tsx:142-177 | the matching code computes the cascade: exact name, then partial name, then keywords |
| TodoForm.KeywordMatch | components/todo/TodoForm.tsx:164-176 | the `for...of` with `break` finds the first table entry with a keyword hit and a category of its name |
| TodoForm.ExactMatchWins | components/todo/TodoForm.tsx:142-145 | the first category whose name equals the label, ignoring case, wins over the later stages |
| TodoForm.PartialMatchNext | components/todo/TodoForm.tsx:148-153 | without an exact match, the first category whose lower-cased name contains the label or is contained in it wins |
| TodoForm.KeywordStageMeaning | components/todo/TodoForm.tsx:156-176 | the keyword stage gives nothing exactly when no entry applies, and otherwise the first entry in table order that applies |
| TodoForm.EntryMatchMeaning | components/todo/TodoForm.tsx:165-171 | an entry applies exactly when one of its keywords occurs in the label or the input and a category has its exact name; the category chosen has that name |
| TodoForm.CategoryFieldRules | components/todo/TodoForm.tsx:140-187 | with no parsed category or no match the category field is unchanged; otherwise it holds the matched id |
| TodoForm.TodoFormState.constructor | components/todo/TodoForm.tsx:50-73 | the form starts with the values `TodoForm.DefaultValues` derives from the todo being edited, or the empty form, with an empty input, no error and not parsing |
| TodoForm.TodoFormState.HandleAIParse | components/todo/TodoForm.tsx:79-203 | blank input changes nothing; otherwise parsing ends off, and a failure shows its message, while a successful answer is applied to the form and clears the input |
| TodoForm.TodoFormState.Respond | components/todo/TodoForm.tsx:94-199 | the `try`/`catch` after the request sets the error for a failure and applies a successful answer |
| TodoForm.TodoFormState.ApplyParsed | components/todo/TodoForm.tsx:124-195 | the `setValue` calls apply the parsed fields, a parsed due date as its UTC minute text, and the matched category; then the input is cleared |
| TodoCard.PriorityColor | components/todo/TodoCard.tsx:29-40 | each priority gets its fixed class, and anything else the slate class |
| TodoCard.PriorityText | components/todo/TodoCard.tsx:43-54 | high, medium and low read 높음, 중간 and 낮음; anything else is shown as it is |
| TodoCard.PriorityBadgesDistinct | components/todo/TodoCard.tsx:29-54 | the three priorities get three different colours and three different texts, none of them the fallback |
| TodoCard.CardAgreesWithList | components/todo/TodoCard.tsx:57 | the card's overdue flag is open, dated and due before now, as in the list |
| TodoCard.CeilDiv | components/todo/TodoCard.tsx:81 | `Math.ceil(a / b)` is the least integer q with a ≤ b·q |
| TodoCard.DaysUntilDue | components/todo/TodoCard.tsx:76-83 | null exactly without a due date, and otherwise the ceiling of the time left in days |
| TodoCard.DaysUntilDueSmall | components/todo/TodoCard.tsx:76-83 | 0 days exactly when due now or less than a day ago, 1 exactly when due later within 24 hours |
| TodoCard.DueLabel | components/todo/TodoCard.tsx:175-179 | the label is shown exactly when there is a due date |
| TodoCard.DueLabelCases | components/todo/TodoCard.tsx:177 | '지연됨' when overdue, otherwise '오늘' for 0, '내일' for 1, and "D-n" for any other n |
| TodoCard.PastDueLabels | components/todo/TodoCard.tsx:175-179 | an open past-due todo is labelled '지연됨'; a completed one past due by a day or more gets a negative "D-n" |
| TodoCard.CategoryLabel | components/todo/TodoCard.tsx:157-163 | shown only when one of the two category objects is present, with `category.name`, then `categories.name`, then '카테고리 없음' |
| SignupPage.CountTrue | app/signup/page.tsx:59-67 | the number of satisfied criteria is at most the number of criteria |
| SignupPage.Strength | app/signup/page.tsx:59-67 | the strength lies in 0..5 |
| SignupPage.GetPasswordStrength | app/signup/page.tsx:59-67 | the step-by-step count is the number of satisfied criteria, at most 5 |
| SignupPage.CriteriaGrow | app/signup/page.tsx:61-65 | a criterion that holds keeps holding after a character is appended |
| SignupPage.CountTrueMono | app/signup/page.tsx:59-67 | when more criteria hold, no fewer are counted |
| SignupPage.StrengthMonotone | app/signup/page.tsx:59-67 | typing one more character never lowers the strength |
| SignupPage.StrengthExtremes | app/signup/page.tsx:59-67 | an empty password scores 0 and one meeting all five criteria scores 5 |
| SignupPage.StrengthHint | app/signup/page.tsx:268 | the hint says the password is good exactly when the strength is at least 3 |
| SignupPage.FilledBarsCount | app/signup/page.tsx:255-263 | exactly `strength` of the five bars are filled |
| SignupPage.SignupSchemaErrors | app/signup/page.tsx:23-31 | a name shorter than 2, a password shorter than 8, a mismatched confirmation and a rejected e-mail each give exactly their error |
| SignupPage.SignupValidMeaning | app/signup/page.tsx:23-31 | the form is valid exactly when the name has 2 or more characters, the password 8 or more, the confirmation matches and the e-mail passes; such a password scores at least 1 |
| SignupPage.SignupErrorMessage | app/signup/page.tsx:91-101 | "already registered", then "Password", then "Email" each give their message in that order, and otherwise the raw message passes through |
| LoginPage.LoginErrorMessage | app/login/page.tsx:61-71 | the three phrases give their fixed messages, the earliest test first, and otherwise the raw message passes through |
| LoginPage.EarliestTestWins | app/login/page.tsx:63-69 | a message holding the first phrase anywhere gets the first phrase's text, whatever else it holds |
| LoginPage.PasswordError | app/login/page.tsx:25 | a password is accepted exactly when at least 6 long |
| Header.FirstChar | components/layout/Header.tsx:34 | `word[0]` joins as at most one character |
| Header.FirstChars | components/layout/Header.tsx:34 | the joined first characters are no more than the words |
| Header.Initials | components/layout/Header.tsx:33-35 | there are no more initials than space-separated pieces |
| Header.FirstCharsOfWords | components/layout/Header.tsx:34 | the joined first characters are exactly the first characters of the non-empty words, in order |
| Header.InitialsMeaning | components/layout/Header.tsx:33-35 | the initials are the upper-cased first characters of the non-empty space-separated words, in order, and no more than the pieces |
| Header.DisplayNameRules | components/layout/Header.tsx:38-43 | a non-empty display name wins; else the part of the e-mail before its first '@' if non-empty; else '사용자' |
| AuthProvider.GuardRedirect | components/providers/AuthProvider.tsx:88-102 | no redirect while loading; "/" with no user goes to /login; /login or /signup with a user goes to "/"; nothing else moves |
| AuthProvider.GuardStays | components/providers/AuthProvider.tsx:91-100 | every other combination of path and user stays where it is |
| AuthProvider.GuardSettles | components/providers/AuthProvider.tsx:91-100 | the guard accepts the page it sends the browser to |
| AuthProvider.EventRedirect | components/providers/AuthProvider.tsx:58-66 | SIGNED_OUT on "/" goes to /login, and SIGNED_IN with a user on /login or /signup goes to "/"; nothing else moves |
| AuthProvider.EventAgreesWithGuard | components/providers/AuthProvider.tsx:54-102 | whenever the listener redirects, the guard on the state the listener leaves sends the browser to the same place |
| AuthProvider.AuthState.constructor | components/providers/AuthProvider.tsx:26-27 | the provider starts with no user and loading |
| AuthProvider.AuthState.CheckUser | components/providers/AuthProvider.tsx:38-47 | the fetched user is stored, a failed fetch keeps the old one, and loading ends either way |
| AuthProvider.AuthState.OnAuthStateChange | components/providers/AuthProvider.tsx:53-67 | the user becomes the session user, loading ends, and the redirect is the event rule's |
| AuthProvider.AuthState.SignOut | components/providers/AuthProvider.tsx:74-85 | unless the call throws, the user is cleared and the browser sent to /login, even when the call returned an error |
| AISummary.SummaryErrorMessage | components/ai/AISummary.tsx:52-68 | 400 gets "입력 오류: " before the server error; 429, 503 and 408 get fixed messages; any other status shows the server error or a default |
| AISummary.SummaryErrorShowsServer | components/ai/AISummary.tsx:52-68 | the message is never empty and shows the server's text whenever the status has no fixed message |
| AISummary.FirstIndexFrom | components/ai/AISummary.tsx:88 | the leftmost index where the match succeeds, or none when it never does |
| AISummary.ExtractCompletionRate | components/ai/AISummary.tsx:87-90 | 0 when the summary holds no number followed by '%' |
| AISummary.ExtractAtFirstMatch | components/ai/AISummary.tsx:87-90 | otherwise the integer part of the number at the leftmost match |
| AISummary.RenderedRateReadBack | components/ai/AISummary.tsx:87-90 | a rate written as `n%` after text without digits is read back as `n` |
| AISummary.SummaryPanel.constructor | components/ai/AISummary.tsx:29-31 | the panel starts not loading, with no data and no error |
| AISummary.SummaryPanel.CompletionRate | components/ai/AISummary.tsx:87-92 | the rate shown is 0 without data; with data it is the rate `ExtractCompletionRate` reads from the summary text |
| AISummary.SummaryPanel.Start | components/ai/AISummary.tsx:37-39 | starting a request sets loading and clears the data and the error |
| AISummary.SummaryPanel.Finish | components/ai/AISummary.tsx:41-83 | after the request loading is off, and each outcome leaves its data or its error |
| AISummary.SummaryPanel.HandleAISummary | components/ai/AISummary.tsx:36-84 | loading is off after every outcome, the panel holds data exactly when the answer was a success with data and holds an error otherwise, and each failure shows its message |

## Left out

- Calls to the language model: the prompts and `generateObject`. The model's
  answer is an arbitrary input to `ParseRoute.ParsedTodo.Postprocess` and
  `SummaryRoute.ModelFailure`. A summary request that passes every check ends
  in `SummaryRoute.AskModel`, which carries the analysis.
- Supabase: the store queries and the `supabase.auth` calls. Their outcomes
  are parameters: rows, `Outcome` values, `fetched`, `returnedError` and
  `threw`.
- Request plumbing: parsing of JSON bodies, `NextResponse`, `fetch`,
  `console` output, `router.push`, `confirm`, `setTimeout` and
  `window.location`. The results of these are parameters or returned values.
  A body that parses as JSON but is `null` makes the destructuring of
  `period` or `text` throw, which the outer `catch` answers with 500; the
  model, whose only input is `bodyIsJson`, answers 400 as for a malformed body.
- Time zones: the host zone is a fixed offset, so daylight-saving changes
  are not modelled.
- `toISOString` text in the parse route: the due date it returns, and the
  date anchors in its prompt, are carried as the instant or the UTC day number
  they denote, not as text.
- TodoForm.ApplyParsed, TodoForm.DefaultValues: the due date is written as
  `toISOString().slice(0, 16)`. The `RangeError` of an invalid `Date` is not
  modelled, because the model's due dates are always instants.
- LocalTime.CivilFromDays: its contract bounds the month and the day but does
  not state that the date maps back to its day number.
- Unicode: lengths count code points rather than the UTF-16 units of
  JavaScript, so text outside the Basic Multilingual Plane counts
  differently. `normalize('NFC')` is the identity. `toLowerCase` and
  `toUpperCase` change only ASCII letters; Hangul has no case.
- AISummary.ExtractCompletionRate: returns only the integer part of the
  matched number, because `parseFloat` of a decimal is floating point.
- Common.RoundPercent: exact rational rounding, half up, with none of the
  floating-point artefacts `Math.round(c / t * 100)` can show.
- E-mail format: zod's rule is library behaviour, so it enters the model as
  the flag `emailValid`, and the login form's e-mail rule is not modelled.
  The sign-up confirmation rule is checked together with the field rules,
  since every field is a string and no field rule aborts the parse.
- Toolbar.PriorityFilterChange: requires the select value to be "all" or a
  priority name. The source casts any other string unchecked, but the
  select offers no other value.
- Common.ParseInt: a category id starting with "0x" or holding more digits
  than a double can represent would differ; category ids are written by
  `toString`, which produces neither.
- TodoList.FilteredAndSortedTodos: filters with the corrected overdue test
  (see Findings). With `is_overdue: false` it keeps the open undated todos
  that components/todo/TodoList.tsx:74-79 drops; for every other flag value it
  equals the code's pipeline (`TodoList.FilterAgreesUnlessFalse`). No control
  of the toolbar sets `is_overdue: false`.
- TodoList.FilterKeepsExactly: stated for the corrected filter, for the same
  reason.
- Category names that clash with a property of `Object.prototype`, such as
  `constructor` or `toString`: the `reduce` over `{}` at
  app/api/ai-summary/route.ts:148-155 finds the inherited property and makes
  no group of its own, while the model's map treats them like any other name.
- Rendering of components, styling, icons, metadata and the re-export files.
- Header.Initials: `toUpperCase` is ASCII-only, as above.
- The sort-change handler's cast of the split pieces (Toolbar.tsx:68-72).
  `Toolbar.SortFromValue` gives `None` for pieces that are not a key and a
  direction; the source cannot produce them.

## Findings

| source | as written | input that shows it | evidently intended | confidence | as-written member | corrected member |
|---|---|---|---|---|---|---|
| components/todo/TodoList.tsx:74-79 | the overdue test `!is_completed && due_date && due < now` is `undefined` for an open undated todo, and `undefined !== false`, so `is_overdue: false` drops it | an open todo without a due date, filtered with `is_overdue: false` | keep every todo that is not overdue when the flag is false | not executed | TodoList.OverdueFalseDropsUndated | TodoList.OverdueFilterMeaning |
| app/api/ai-parse-todo/route.ts:158-167 | the weekday of `koreaTime` is read with `getDay()`, in the host's zone; on a host at UTC+9 that is the weekday of now + 18 h | a host at UTC+9 at 20:00 on Thursday 1 January 1970 in Korea: the offset is 7 and "this Friday" is Thursday 8 January | the weekday of the Korean calendar day (`getUTCDay()`), which gives Friday 2 January | not executed | ParseRoute.FridayAnchorOnKoreanHost | ParseRoute.IntendedAnchors |
