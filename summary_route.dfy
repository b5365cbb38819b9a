/** The statistics side of the summary endpoint (app/api/ai-summary/route.ts):
    period validation, the period filter, the aggregate statistics that feed the
    narrative request, the canned reply for an empty period and the mapping of
    failures to HTTP statuses.  The language-model call itself is not modelled: a
    non-empty period ends in `AskModel` carrying the statistics. */
module SummaryRoute {
  import opened Common
  import opened Types
  import opened LocalTime

  // ---------------------------------------------------------------------------
  // Input

  datatype Period = Today | Week

  const PeriodError := "분석 기간은 \"today\" 또는 \"week\"이어야 합니다."

  /** `validateInput`: the period must be one of the two tokens.  `None` stands for
      a missing field or a value that is not a string. */
  function ValidateInput(period: Option<string>): (r: Result<Period, string>)
    ensures r.Ok? <==> period == Some("today") || period == Some("week")
    ensures r.Ok? ==> (r.value == Today <==> period == Some("today"))
    ensures r.Err? ==> r.error == PeriodError
  {
    if period == Some("today") then Ok(Today)
    else if period == Some("week") then Ok(Week)
    else Err(PeriodError)
  }

  /** One row of the store query: the columns the statistics read.  The query
      selects neither `completed_at` nor `updated_at`, so both are optional. */
  datatype TaskRow = TaskRow(
    title: string,
    dueDate: Option<int>,
    priority: Priority,
    isCompleted: bool,
    categoryName: Option<string>,   // `categories?.name`
    completedAt: Option<int>,
    updatedAt: Option<int>)

  // ---------------------------------------------------------------------------
  // Row predicates

  datatype Bucket = Morning | Afternoon | Evening | Night

  /** The time-of-day bucket of a local hour. */
  function BucketOf(hour: int): Bucket
  {
    if 6 <= hour < 12 then Morning
    else if 12 <= hour < 18 then Afternoon
    else if 18 <= hour < 24 then Evening
    else Night
  }

  /** `todo.categories?.name || '미분류'` */
  function CategoryLabel(r: TaskRow): string
  {
    match r.categoryName
    case Some(n) => if n != "" then n else "미분류"
    case None => "미분류"
  }

  /** `new Date(todo.completed_at || todo.updated_at)`; `None` is an invalid date. */
  function CompletionTime(r: TaskRow): Option<int>
  {
    if r.completedAt.Some? then r.completedAt else r.updatedAt
  }

  /** The row tests in the route, each named after what it keeps. */
  datatype Criterion =
    | Completed
    | OfPriority(p: Priority)
    | CompletedOfPriority(p: Priority)
    | DueOnDay(day: int)              // the period filter for "today"
    | DueBetween(lo: int, hi: int)    // the period filter for "week"
    | Overdue(today: int)
    | OpenDueOnDay(day: int)          // not completed and due on that local day
    | Dated
    | CompletedAndDated
    | CompletedOnTime
    | DueInBucket(b: Bucket)
    | InCategory(name: string)
    | CompletedInCategory(name: string)

  predicate Matches(z: Zone, c: Criterion, r: TaskRow)
  {
    match c
    case Completed => r.isCompleted
    case OfPriority(p) => r.priority == p
    case CompletedOfPriority(p) => r.priority == p && r.isCompleted
    case DueOnDay(day) => r.dueDate.Some? && LocalMidnight(z, r.dueDate.value) == day
    case DueBetween(lo, hi) => r.dueDate.Some? && lo <= r.dueDate.value <= hi
    case Overdue(today) => r.dueDate.Some? && !r.isCompleted && r.dueDate.value < today
    case OpenDueOnDay(day) =>
      r.dueDate.Some? && !r.isCompleted && LocalMidnight(z, r.dueDate.value) == day
    case Dated => r.dueDate.Some?
    case CompletedAndDated => r.dueDate.Some? && r.isCompleted
    case CompletedOnTime =>
      r.dueDate.Some? && r.isCompleted
      && CompletionTime(r).Some? && CompletionTime(r).value <= r.dueDate.value
    case DueInBucket(b) => r.dueDate.Some? && BucketOf(LocalHour(z, r.dueDate.value)) == b
    case InCategory(name) => CategoryLabel(r) == name
    case CompletedInCategory(name) => CategoryLabel(r) == name && r.isCompleted
  }

  /** The test as a function value, so that equal criteria give equal filters. */
  function Test(z: Zone, c: Criterion): TaskRow -> bool
  {
    r => Matches(z, c, r)
  }

  /** `rows.filter(test)` */
  function Select(z: Zone, rows: seq<TaskRow>, c: Criterion): seq<TaskRow>
  {
    Filter(rows, Test(z, c))
  }

  /** `rows.filter(test).length` */
  function Count(z: Zone, rows: seq<TaskRow>, c: Criterion): nat
  {
    |Select(z, rows, c)|
  }

  // ---------------------------------------------------------------------------
  // Period filter

  function StartOfWeek(z: Zone, now: int): int
  {
    var today := LocalMidnight(z, now);
    today - Weekday(z, today) * DAY
  }

  /** `preprocessTodoData`: the tasks due on the local day of `now`, or due between
      Sunday 00:00 and Saturday 00:00 of its week. */
  function PreprocessTodoData(z: Zone, rows: seq<TaskRow>, period: Period, now: int): seq<TaskRow>
  {
    match period
    case Today => Select(z, rows, DueOnDay(LocalMidnight(z, now)))
    case Week =>
      var start := StartOfWeek(z, now);
      Select(z, rows, DueBetween(start, start + 6 * DAY))
  }

  /** The "today" filter keeps, in input order, exactly the dated tasks whose local
      day is today's. */
  lemma TodayFilterExact(z: Zone, rows: seq<TaskRow>, now: int)
    ensures var kept := PreprocessTodoData(z, rows, Today, now);
      IsSubsequence(kept, rows)
      && (forall i :: 0 <= i < |kept| ==>
            kept[i].dueDate.Some? && LocalMidnight(z, kept[i].dueDate.value) == LocalMidnight(z, now))
      && (forall i :: (0 <= i < |rows| && rows[i].dueDate.Some?
            && LocalMidnight(z, rows[i].dueDate.value) == LocalMidnight(z, now)) ==> rows[i] in kept)
  {
    FilterIsSubsequence(rows, Test(z, DueOnDay(LocalMidnight(z, now))));
    FilterMembers(rows, Test(z, DueOnDay(LocalMidnight(z, now))));
  }

  /** The "week" filter keeps, in input order, exactly the dated tasks due from
      Sunday 00:00 up to and including Saturday 00:00; undated tasks never. */
  lemma WeekFilterExact(z: Zone, rows: seq<TaskRow>, now: int)
    ensures var start := StartOfWeek(z, now);
      var kept := PreprocessTodoData(z, rows, Week, now);
      IsSubsequence(kept, rows)
      && (forall i :: 0 <= i < |kept| ==>
            kept[i].dueDate.Some? && start <= kept[i].dueDate.value <= start + 6 * DAY)
      && (forall i :: (0 <= i < |rows| && rows[i].dueDate.Some?
            && start <= rows[i].dueDate.value <= start + 6 * DAY) ==> rows[i] in kept)
  {
    var start := StartOfWeek(z, now);
    FilterIsSubsequence(rows, Test(z, DueBetween(start, start + 6 * DAY)));
    FilterMembers(rows, Test(z, DueBetween(start, start + 6 * DAY)));
  }

  /** The week starts on the Sunday midnight of the current week, and the upper
      bound is the Saturday midnight six days later. */
  lemma WeekBounds(z: Zone, now: int)
    ensures var start := StartOfWeek(z, now);
      IsMidnight(z, start) && Weekday(z, start) == 0
      && start <= now < start + 7 * DAY
      && Weekday(z, start + 6 * DAY) == 6
  {
    var today := LocalMidnight(z, now);
    var w := Weekday(z, today);
    ShiftDays(z, today, -w);
    assert today - w * DAY == today + (-w) * DAY;
    var start := StartOfWeek(z, now);
    ShiftDays(z, start, 6);
  }

  /** A task due on Saturday after midnight is outside the week: the upper bound is
      the start of Saturday, not its end. */
  lemma SaturdayAfterMidnightExcluded(z: Zone, now: int, r: TaskRow)
    requires r.dueDate.Some?
    requires var start := StartOfWeek(z, now);
      start + 6 * DAY < r.dueDate.value < start + 7 * DAY
    ensures r !in PreprocessTodoData(z, [r], Week, now)
  {
    assert !Matches(z, DueBetween(StartOfWeek(z, now), StartOfWeek(z, now) + 6 * DAY), r);
  }

  /** Neither period ever keeps an undated task. */
  lemma UndatedNeverKept(z: Zone, rows: seq<TaskRow>, period: Period, now: int)
    ensures forall r :: r in PreprocessTodoData(z, rows, period, now) ==> r.dueDate.Some?
  {
    var start := StartOfWeek(z, now);
    FilterMembers(rows, Test(z, DueOnDay(LocalMidnight(z, now))));
    FilterMembers(rows, Test(z, DueBetween(start, start + 6 * DAY)));
  }

  // ---------------------------------------------------------------------------
  // Statistics

  datatype GroupStats = GroupStats(total: nat, completed: nat, completionRate: nat)

  datatype TimeDistribution = TimeDistribution(morning: nat, afternoon: nat, evening: nat, night: nat)
  {
    function Get(b: Bucket): nat
    {
      match b
      case Morning => morning
      case Afternoon => afternoon
      case Evening => evening
      case Night => night
    }

    function Bump(b: Bucket): TimeDistribution
    {
      match b
      case Morning => this.(morning := morning + 1)
      case Afternoon => this.(afternoon := afternoon + 1)
      case Evening => this.(evening := evening + 1)
      case Night => this.(night := night + 1)
    }
  }

  datatype Analysis = Analysis(
    totalTodos: nat,
    completedTodos: nat,
    completionRate: nat,
    priorityDistribution: map<Priority, nat>,
    priorityStats: map<Priority, GroupStats>,
    overdueTasks: nat,
    dueTodayTasks: nat,
    dueTomorrowTasks: nat,
    timeDistribution: TimeDistribution,
    onTimeRate: nat,
    categoryStats: map<string, GroupStats>,
    mostProductiveTime: string,
    urgentTasks: seq<string>)

  const Priorities: seq<Priority> := [High, Medium, Low]
  const Buckets: seq<Bucket> := [Morning, Afternoon, Evening, Night]

  /** A priority group as first built, with its rate still 0. */
  function Unrated(z: Zone, rows: seq<TaskRow>, p: Priority): GroupStats
  {
    GroupStats(Count(z, rows, OfPriority(p)), Count(z, rows, CompletedOfPriority(p)), 0)
  }

  function PriorityGroup(z: Zone, rows: seq<TaskRow>, p: Priority): GroupStats
  {
    WithRate(Unrated(z, rows, p))
  }

  function CategoryLabels(rows: seq<TaskRow>): set<string>
  {
    set r | r in rows :: CategoryLabel(r)
  }

  /** One step of the category `reduce`: the task's label gets a group if it has
      none, and the group counts the task (and its completion). */
  function Tally(acc: map<string, GroupStats>, r: TaskRow): map<string, GroupStats>
  {
    var key := CategoryLabel(r);
    var prior := if key in acc then acc[key] else GroupStats(0, 0, 0);
    acc[key := prior.(total := prior.total + 1,
                      completed := prior.completed + (if r.isCompleted then 1 else 0))]
  }

  /** The `reduce` over the tasks, from the left, starting from `{}`. */
  function CategoryCounts(rows: seq<TaskRow>): map<string, GroupStats>
  {
    if rows == [] then map[] else Tally(CategoryCounts(rows[..|rows| - 1]), rows[|rows| - 1])
  }

  /** What the reduce computes: one group per label that occurs, holding the
      number of tasks with that label and how many of them are completed. */
  lemma CategoryCountsMeaning(z: Zone, rows: seq<TaskRow>, k: string)
    ensures k in CategoryCounts(rows) <==> k in CategoryLabels(rows)
    ensures k in CategoryCounts(rows) ==>
      CategoryCounts(rows)[k] == GroupStats(Count(z, rows, InCategory(k)), Count(z, rows, CompletedInCategory(k)), 0)
    ensures k !in CategoryLabels(rows) ==>
      Count(z, rows, InCategory(k)) == 0 && Count(z, rows, CompletedInCategory(k)) == 0
  {
    CategoryKeys(rows, k);
    AbsentLabelUncounted(z, rows, k);
    CategoryGroupCounts(z, rows, k);
  }

  /** The reduce makes a group for exactly the labels that occur. */
  lemma {:induction false} CategoryKeys(rows: seq<TaskRow>, k: string)
    ensures k in CategoryCounts(rows) <==> k in CategoryLabels(rows)
  {
    if rows != [] {
      var s, r := rows[..|rows| - 1], rows[|rows| - 1];
      CategoryKeys(s, k);
      assert rows == s + [r];
      LabelsAppend(s, r);
      TallyAt(CategoryCounts(s), r, k);
    }
  }

  /** No task carries a label that does not occur. */
  lemma {:induction false} AbsentLabelUncounted(z: Zone, rows: seq<TaskRow>, k: string)
    ensures k !in CategoryLabels(rows) ==>
      Count(z, rows, InCategory(k)) == 0 && Count(z, rows, CompletedInCategory(k)) == 0
  {
    if rows != [] {
      var s, r := rows[..|rows| - 1], rows[|rows| - 1];
      AbsentLabelUncounted(z, s, k);
      assert rows == s + [r];
      LabelsAppend(s, r);
      CountAppend(z, s, r, InCategory(k));
      CountAppend(z, s, r, CompletedInCategory(k));
    }
  }

  /** The group of a label counts its tasks and its completed tasks. */
  lemma {:induction false} CategoryGroupCounts(z: Zone, rows: seq<TaskRow>, k: string)
    ensures k in CategoryCounts(rows) ==>
      CategoryCounts(rows)[k] == GroupStats(Count(z, rows, InCategory(k)), Count(z, rows, CompletedInCategory(k)), 0)
  {
    if rows != [] {
      var s, r := rows[..|rows| - 1], rows[|rows| - 1];
      var acc := CategoryCounts(s);
      assert rows == s + [r];
      assert CategoryCounts(rows) == Tally(acc, r);
      CategoryGroupCounts(z, s, k);
      CountAppend(z, s, r, InCategory(k));
      CountAppend(z, s, r, CompletedInCategory(k));
      TallyAt(acc, r, k);
      if k == CategoryLabel(r) && k !in acc {
        // A new group: the earlier tasks carry no task of this label.
        CategoryKeys(s, k);
        AbsentLabelUncounted(z, s, k);
      }
    }
  }

  /** Counting over one more task. */
  lemma CountAppend(z: Zone, s: seq<TaskRow>, r: TaskRow, c: Criterion)
    ensures Count(z, s + [r], c) == Count(z, s, c) + (if Matches(z, c, r) then 1 else 0)
  {
    FilterAppend(s, r, Test(z, c));
  }

  /** What one `reduce` step does to the group of label `k`. */
  lemma TallyAt(acc: map<string, GroupStats>, r: TaskRow, k: string)
    ensures k in Tally(acc, r) <==> k in acc || k == CategoryLabel(r)
    ensures k in Tally(acc, r) && k != CategoryLabel(r) ==> Tally(acc, r)[k] == acc[k]
    ensures k == CategoryLabel(r) ==>
      var prior := if k in acc then acc[k] else GroupStats(0, 0, 0);
      Tally(acc, r)[k] == prior.(total := prior.total + 1,
                                 completed := prior.completed + (if r.isCompleted then 1 else 0))
  {
  }

  lemma LabelsAppend(s: seq<TaskRow>, r: TaskRow)
    ensures CategoryLabels(s + [r]) == CategoryLabels(s) + {CategoryLabel(r)}
  {
    forall x | x in s + [r] ensures x in s || x == r { }
    assert r in s + [r];
  }

  /** The group with its completion rate filled in. */
  function WithRate(g: GroupStats): GroupStats
  {
    g.(completionRate := RoundPercent(g.completed, g.total))
  }

  /** Every group of `counts` with its rate filled in. */
  function RateAll<K>(counts: map<K, GroupStats>): map<K, GroupStats>
  {
    map k | k in counts :: WithRate(counts[k])
  }

  function CategoryStatsOf(rows: seq<TaskRow>): map<string, GroupStats>
  {
    RateAll(CategoryCounts(rows))
  }

  function TimeDistributionOf(z: Zone, rows: seq<TaskRow>): TimeDistribution
  {
    TimeDistribution(Count(z, rows, DueInBucket(Morning)), Count(z, rows, DueInBucket(Afternoon)),
                     Count(z, rows, DueInBucket(Evening)), Count(z, rows, DueInBucket(Night)))
  }

  /** `Object.entries(timeDistribution).sort(([, a], [, b]) => b - a)[0]`: the sort
      is stable, so the first bucket, in morning-afternoon-evening-night order, with
      the largest count. */
  function MostPopulated(d: TimeDistribution): (r: (Bucket, nat))
    ensures r.1 == d.Get(r.0)
    ensures forall i :: 0 <= i < |Buckets| ==> d.Get(Buckets[i]) <= r.1
    ensures forall i :: 0 <= i < |Buckets| && Buckets[i] == r.0 ==>
              forall j :: 0 <= j < i ==> d.Get(Buckets[j]) < r.1
  {
    var best := if d.morning >= d.afternoon then (Morning, d.morning) else (Afternoon, d.afternoon);
    var best := if best.1 >= d.evening then best else (Evening, d.evening);
    if best.1 >= d.night then best else (Night, d.night)
  }

  function Titles(rows: seq<TaskRow>): (r: seq<string>)
    ensures |r| == |rows|
    ensures forall i :: 0 <= i < |rows| ==> r[i] == rows[i].title
  {
    if rows == [] then [] else [rows[0].title] + Titles(rows[1..])
  }

  function BucketName(b: Bucket): string
  {
    match b
    case Morning => "morning"
    case Afternoon => "afternoon"
    case Evening => "evening"
    case Night => "night"
  }

  /** `${name} (${count}개)` for the first entry of the sorted histogram (never
      empty, so the fallback '없음' is unreachable). */
  function MostProductiveTimeOf(d: TimeDistribution): string
  {
    var best := MostPopulated(d);
    BucketName(best.0) + " (" + NatToString(best.1) + "개)"
  }

  function PriorityDistributionOf(z: Zone, rows: seq<TaskRow>): map<Priority, nat>
  {
    map[High := Count(z, rows, OfPriority(High)), Medium := Count(z, rows, OfPriority(Medium)),
        Low := Count(z, rows, OfPriority(Low))]
  }

  function PriorityStatsOf(z: Zone, rows: seq<TaskRow>): map<Priority, GroupStats>
  {
    RateAll(map[High := Unrated(z, rows, High), Medium := Unrated(z, rows, Medium),
                Low := Unrated(z, rows, Low)])
  }

  function OnTimeRateOf(z: Zone, rows: seq<TaskRow>): nat
  {
    RoundPercent(Count(z, rows, CompletedOnTime), Count(z, rows, CompletedAndDated))
  }

  /** `[...overdueTasks, ...dueTodayTasks].slice(0, 5).map(todo => todo.title)` */
  function UrgentTasksOf(z: Zone, rows: seq<TaskRow>, today: int): seq<string>
  {
    Titles(Take(Select(z, rows, Overdue(today)) + Select(z, rows, OpenDueOnDay(today)), 5))
  }

  /** Everything `generateAnalysisData` returns, field by field. */
  function AnalysisOf(z: Zone, rows: seq<TaskRow>, now: int): Analysis
  {
    var today := LocalMidnight(z, now);
    Analysis(
      |rows|, Count(z, rows, Completed), RoundPercent(Count(z, rows, Completed), |rows|),
      PriorityDistributionOf(z, rows),
      PriorityStatsOf(z, rows),
      Count(z, rows, Overdue(today)),
      Count(z, rows, OpenDueOnDay(today)),
      Count(z, rows, OpenDueOnDay(today + DAY)),
      TimeDistributionOf(z, rows),
      OnTimeRateOf(z, rows),
      CategoryStatsOf(rows),
      MostProductiveTimeOf(TimeDistributionOf(z, rows)),
      UrgentTasksOf(z, rows, today))
  }

  /** The `forEach` over the tasks that fills the time-of-day histogram. */
  method ComputeTimeDistribution(z: Zone, rows: seq<TaskRow>) returns (dist: TimeDistribution)
    ensures dist == TimeDistributionOf(z, rows)
  {
    dist := TimeDistribution(0, 0, 0, 0);
    var i := 0;
    while i < |rows|
      invariant 0 <= i <= |rows|
      invariant dist == TimeDistributionOf(z, rows[..i])
    {
      var r := rows[i];
      assert rows[..i + 1] == rows[..i] + [r];
      HistogramStep(z, rows[..i], r);
      if r.dueDate.Some? {
        var hour := LocalHour(z, r.dueDate.value);
        if 6 <= hour < 12 {
          dist := dist.(morning := dist.morning + 1);
        } else if 12 <= hour < 18 {
          dist := dist.(afternoon := dist.afternoon + 1);
        } else if 18 <= hour < 24 {
          dist := dist.(evening := dist.evening + 1);
        } else {
          dist := dist.(night := dist.night + 1);
        }
      }
      i := i + 1;
    }
    assert rows[..|rows|] == rows;
  }

  /** Appending a task bumps the bucket of its due hour, if it has a due date. */
  lemma HistogramStep(z: Zone, s: seq<TaskRow>, r: TaskRow)
    ensures TimeDistributionOf(z, s + [r]) ==
      if r.dueDate.Some? then TimeDistributionOf(z, s).Bump(BucketOf(LocalHour(z, r.dueDate.value)))
      else TimeDistributionOf(z, s)
  {
    FilterAppend(s, r, Test(z, DueInBucket(Morning)));
    FilterAppend(s, r, Test(z, DueInBucket(Afternoon)));
    FilterAppend(s, r, Test(z, DueInBucket(Evening)));
    FilterAppend(s, r, Test(z, DueInBucket(Night)));
  }

  /** The `reduce` that counts tasks and completions per category label. */
  method CountByCategory(z: Zone, rows: seq<TaskRow>) returns (acc: map<string, GroupStats>)
    ensures acc == CategoryCounts(rows)
  {
    acc := map[];
    var i := 0;
    while i < |rows|
      invariant 0 <= i <= |rows|
      invariant acc == CategoryCounts(rows[..i])
    {
      assert rows[..i + 1][..i] == rows[..i];
      var category := CategoryLabel(rows[i]);
      if category !in acc {
        acc := acc[category := GroupStats(0, 0, 0)];
      }
      var group := acc[category];
      group := group.(total := group.total + 1);
      if rows[i].isCompleted {
        group := group.(completed := group.completed + 1);
      }
      acc := acc[category := group];
      i := i + 1;
    }
    assert rows[..|rows|] == rows;
  }

  /** The `Object.keys(...).forEach` pass that fills in each group's rate; the
      route runs it over the priority groups and over the category groups. */
  method FillRates<K>(counts: map<K, GroupStats>) returns (stats: map<K, GroupStats>)
    ensures stats == RateAll(counts)
  {
    stats := counts;
    var pending := counts.Keys;
    while pending != {}
      invariant pending <= stats.Keys == counts.Keys
      invariant forall c :: c in pending ==> stats[c] == counts[c]
      invariant forall c :: c in counts && c !in pending ==> stats[c] == WithRate(counts[c])
      decreases pending
    {
      var category :| category in pending;
      var group := stats[category];
      stats := stats[category := group.(completionRate := RoundPercent(group.completed, group.total))];
      pending := pending - {category};
    }
    assert stats == RateAll(counts);
  }

  /** `generateAnalysisData`: the counts, the per-priority and per-category passes,
      the histogram, and the urgent list. */
  method GenerateAnalysisData(z: Zone, rows: seq<TaskRow>, now: int) returns (a: Analysis)
    ensures a == AnalysisOf(z, rows, now)
  {
    var today := LocalMidnight(z, now);
    var completed, completionRate, onTimeRate := Rates(z, rows);
    var priorityDistribution, priorityStats := PriorityGroups(z, rows);
    var overdue, dueToday, dueTomorrow, urgent := Deadlines(z, rows, now);
    var dist := ComputeTimeDistribution(z, rows);
    var categoryStats := CategoryGroups(z, rows);
    a := Analysis(|rows|, completed, completionRate, priorityDistribution, priorityStats,
                  overdue, dueToday, dueTomorrow, dist, onTimeRate, categoryStats,
                  MostProductiveTimeOf(dist), urgent);
  }

  /** The completion count, the overall rate (0 for no task) and the on-time rate
      (0 for no completed dated task). */
  method Rates(z: Zone, rows: seq<TaskRow>) returns (completed: nat, completionRate: nat, onTimeRate: nat)
    ensures completed == Count(z, rows, Completed)
    ensures completionRate == RoundPercent(Count(z, rows, Completed), |rows|)
    ensures onTimeRate == OnTimeRateOf(z, rows)
    ensures completed <= |rows| && completionRate <= 100 && onTimeRate <= 100
    ensures |rows| == 0 ==> completionRate == 0
    ensures completed == |rows| > 0 ==> completionRate == 100
    ensures Count(z, rows, CompletedAndDated) == 0 ==> onTimeRate == 0
  {
    OnTimeRateBounds(z, rows, 0);
    var total := |rows|;
    completed := Count(z, rows, Completed);
    completionRate := if total > 0 then RoundPercent(completed, total) else 0;
    var withDue := Count(z, rows, CompletedAndDated);
    var onTime := Count(z, rows, CompletedOnTime);
    onTimeRate := if withDue > 0 then RoundPercent(onTime, withDue) else 0;
  }

  /** The three deadline counts of `now`'s day and the titles of the first five
      overdue-then-due-today tasks: no task is counted twice, and the urgent
      list takes the overdue titles first, in input order. */
  method Deadlines(z: Zone, rows: seq<TaskRow>, now: int)
    returns (overdueCount: nat, dueTodayCount: nat, dueTomorrowCount: nat, urgent: seq<string>)
    ensures var today := LocalMidnight(z, now);
      overdueCount == Count(z, rows, Overdue(today))
      && dueTodayCount == Count(z, rows, OpenDueOnDay(today))
      && dueTomorrowCount == Count(z, rows, OpenDueOnDay(today + DAY))
      && urgent == UrgentTasksOf(z, rows, today)
    ensures overdueCount + dueTodayCount + dueTomorrowCount <= |rows|
    ensures |urgent| == Min(5, overdueCount + dueTodayCount) && |urgent| <= 5
    ensures var overdue := Select(z, rows, Overdue(LocalMidnight(z, now)));
      forall i :: 0 <= i < |urgent| && i < |overdue| ==> urgent[i] == overdue[i].title
    ensures var overdue := Select(z, rows, Overdue(LocalMidnight(z, now)));
      var dueToday := Select(z, rows, OpenDueOnDay(LocalMidnight(z, now)));
      forall i :: |overdue| <= i < |urgent| ==> urgent[i] == dueToday[i - |overdue|].title
  {
    var today := LocalMidnight(z, now);
    var overdue := Select(z, rows, Overdue(today));
    var dueToday := Select(z, rows, OpenDueOnDay(today));
    var dueTomorrow := Select(z, rows, OpenDueOnDay(today + DAY));
    overdueCount, dueTodayCount, dueTomorrowCount := |overdue|, |dueToday|, |dueTomorrow|;
    urgent := Titles(Take(overdue + dueToday, 5));
    DeadlineCountsAt(z, rows, today);
    UrgentTasksAt(z, rows, today);
  }

  /** The three priority groups, counted and then given their rates in the
      `forEach`; the distribution is their sizes. */
  method PriorityGroups(z: Zone, rows: seq<TaskRow>) returns (distribution: map<Priority, nat>, stats: map<Priority, GroupStats>)
    ensures distribution == PriorityDistributionOf(z, rows)
    ensures stats == PriorityStatsOf(z, rows)
  {
    stats := FillRates(map[High := Unrated(z, rows, High), Medium := Unrated(z, rows, Medium),
                           Low := Unrated(z, rows, Low)]);
    distribution := map[High := stats[High].total, Medium := stats[Medium].total, Low := stats[Low].total];
  }

  /** The category `reduce`, then the rates filled in. */
  method CategoryGroups(z: Zone, rows: seq<TaskRow>) returns (stats: map<string, GroupStats>)
    ensures stats == CategoryStatsOf(rows)
  {
    var counts := CountByCategory(z, rows);
    stats := FillRates(counts);
  }

  // ---------------------------------------------------------------------------
  // Properties of the statistics

  /** The per-priority groups: one per priority, each counting the tasks of that
      priority and its completed ones, with at most as many completions as tasks
      and a rate that is their rounded percentage. */
  lemma PriorityStatsMeaning(z: Zone, rows: seq<TaskRow>, p: Priority)
    ensures p in PriorityStatsOf(z, rows)
    ensures var g := PriorityStatsOf(z, rows)[p];
      g.total == Count(z, rows, OfPriority(p))
      && g.completed == Count(z, rows, CompletedOfPriority(p))
      && g.completed <= g.total
      && g.completionRate == RoundPercent(g.completed, g.total) <= 100
  {
    FilterStronger(rows, Test(z, OfPriority(p)), Test(z, CompletedOfPriority(p)));
  }

  /** The per-category groups: one per label that occurs, each counting the
      tasks with that label and its completed ones, with at most as many
      completions as tasks and a rate that is their rounded percentage. */
  lemma CategoryStatsMeaning(z: Zone, rows: seq<TaskRow>, k: string)
    ensures k in CategoryStatsOf(rows) <==> k in CategoryLabels(rows)
    ensures k in CategoryStatsOf(rows) ==>
      var g := CategoryStatsOf(rows)[k];
      g.total == Count(z, rows, InCategory(k))
      && g.completed == Count(z, rows, CompletedInCategory(k))
      && g.completed <= g.total
      && g.completionRate == RoundPercent(g.completed, g.total) <= 100
  {
    CategoryCountsMeaning(z, rows, k);
    FilterStronger(rows, Test(z, InCategory(k)), Test(z, CompletedInCategory(k)));
  }

  /** Each group has no more completions than members, and every rate is a
      percentage. */
  lemma RatesAreBounded(z: Zone, rows: seq<TaskRow>, now: int)
    ensures var a := AnalysisOf(z, rows, now);
      a.completedTodos <= a.totalTodos && a.completionRate <= 100
      && (forall p :: p in a.priorityStats ==>
            a.priorityStats[p].completed <= a.priorityStats[p].total
            && a.priorityStats[p].completionRate <= 100)
      && (forall c :: c in a.categoryStats ==>
            a.categoryStats[c].completed <= a.categoryStats[c].total
            && a.categoryStats[c].completionRate <= 100)
      && a.onTimeRate <= 100
  {
    forall p: Priority ensures p in PriorityStatsOf(z, rows) && PriorityStatsOf(z, rows)[p].completed <= PriorityStatsOf(z, rows)[p].total {
      PriorityStatsMeaning(z, rows, p);
    }
    forall c | c in CategoryStatsOf(rows)
      ensures CategoryStatsOf(rows)[c].completed <= CategoryStatsOf(rows)[c].total
    {
      CategoryStatsMeaning(z, rows, c);
    }
    FilterStronger(rows, Test(z, CompletedAndDated), Test(z, CompletedOnTime));
  }

  /** The overall, per-priority and per-category rates are all the same rounded
      percentage of completions over members (0 for an empty group). */
  lemma RatesAreRoundedPercentages(z: Zone, rows: seq<TaskRow>, now: int)
    ensures var a := AnalysisOf(z, rows, now);
      a.completionRate == RoundPercent(a.completedTodos, a.totalTodos)
      && (forall p :: p in a.priorityStats ==>
            a.priorityStats[p].completionRate == RoundPercent(a.priorityStats[p].completed, a.priorityStats[p].total))
      && (forall c :: c in a.categoryStats ==>
            a.categoryStats[c].completionRate == RoundPercent(a.categoryStats[c].completed, a.categoryStats[c].total))
      && (a.totalTodos == 0 ==> a.completionRate == 0)
  {
  }

  /** Overdue, due today and due tomorrow are pairwise exclusive, never hold of a
      completed or undated task, and so together count at most all tasks. */
  lemma DeadlineSetsDisjoint(z: Zone, rows: seq<TaskRow>, now: int)
    ensures var today := LocalMidnight(z, now);
      forall r: TaskRow ::
        && !(Matches(z, Overdue(today), r) && Matches(z, OpenDueOnDay(today), r))
        && !(Matches(z, Overdue(today), r) && Matches(z, OpenDueOnDay(today + DAY), r))
        && !(Matches(z, OpenDueOnDay(today), r) && Matches(z, OpenDueOnDay(today + DAY), r))
        && ((r.isCompleted || r.dueDate.None?) ==>
              !Matches(z, Overdue(today), r) && !Matches(z, OpenDueOnDay(today), r)
              && !Matches(z, OpenDueOnDay(today + DAY), r))
    ensures var a := AnalysisOf(z, rows, now);
      a.overdueTasks + a.dueTodayTasks + a.dueTomorrowTasks <= a.totalTodos
  {
    var today := LocalMidnight(z, now);
    DeadlineRowsExclusive(z, today);
    DeadlineCountsAt(z, rows, today);
    DeadlineFields(z, rows, now);
  }

  /** For any day, no task is in two of the three selections, and a completed or
      undated task is in none. */
  lemma DeadlineRowsExclusive(z: Zone, today: int)
    ensures forall r: TaskRow ::
        && !(Matches(z, Overdue(today), r) && Matches(z, OpenDueOnDay(today), r))
        && !(Matches(z, Overdue(today), r) && Matches(z, OpenDueOnDay(today + DAY), r))
        && !(Matches(z, OpenDueOnDay(today), r) && Matches(z, OpenDueOnDay(today + DAY), r))
        && ((r.isCompleted || r.dueDate.None?) ==>
              !Matches(z, Overdue(today), r) && !Matches(z, OpenDueOnDay(today), r)
              && !Matches(z, OpenDueOnDay(today + DAY), r))
  {
    forall r: TaskRow
      ensures !(Matches(z, Overdue(today), r) && Matches(z, OpenDueOnDay(today), r))
      ensures !(Matches(z, Overdue(today), r) && Matches(z, OpenDueOnDay(today + DAY), r))
    {
      DeadlinesExclusive(z, today, r);
    }
  }

  /** The analysis's deadline fields are the three counts of today's local day. */
  lemma DeadlineFields(z: Zone, rows: seq<TaskRow>, now: int)
    ensures var a := AnalysisOf(z, rows, now);
      var today := LocalMidnight(z, now);
      a.totalTodos == |rows|
      && a.overdueTasks == Count(z, rows, Overdue(today))
      && a.dueTodayTasks == Count(z, rows, OpenDueOnDay(today))
      && a.dueTomorrowTasks == Count(z, rows, OpenDueOnDay(today + DAY))
  {
  }

  /** A task due before a midnight is not due on that day or the next. */
  lemma DeadlinesExclusive(z: Zone, today: int, r: TaskRow)
    ensures !(Matches(z, Overdue(today), r) && Matches(z, OpenDueOnDay(today), r))
    ensures !(Matches(z, Overdue(today), r) && Matches(z, OpenDueOnDay(today + DAY), r))
  {
    if r.dueDate.Some? {
      var m := LocalMidnight(z, r.dueDate.value);
      assert m <= r.dueDate.value;
    }
  }

  /** For any day, the three deadline counts add up to at most the total. */
  lemma DeadlineCountsAt(z: Zone, rows: seq<TaskRow>, today: int)
    ensures Count(z, rows, Overdue(today)) + Count(z, rows, OpenDueOnDay(today))
            + Count(z, rows, OpenDueOnDay(today + DAY)) <= |rows|
  {
    forall r: TaskRow
      ensures !(Matches(z, Overdue(today), r) && Matches(z, OpenDueOnDay(today), r))
      ensures !(Matches(z, Overdue(today), r) && Matches(z, OpenDueOnDay(today + DAY), r))
    {
      DeadlinesExclusive(z, today, r);
    }
    DeadlineCounts(z, rows, today);
  }

  lemma DeadlineCounts(z: Zone, rows: seq<TaskRow>, today: int)
    requires forall r: TaskRow ::
      && !(Matches(z, Overdue(today), r) && Matches(z, OpenDueOnDay(today), r))
      && !(Matches(z, Overdue(today), r) && Matches(z, OpenDueOnDay(today + DAY), r))
    ensures Count(z, rows, Overdue(today)) + Count(z, rows, OpenDueOnDay(today))
            + Count(z, rows, OpenDueOnDay(today + DAY)) <= |rows|
  {
    FilterDisjoint3(rows, Test(z, Overdue(today)), Test(z, OpenDueOnDay(today)), Test(z, OpenDueOnDay(today + DAY)));
  }

  /** Overdue means due strictly before today's local midnight, and an overdue
      task is open and dated. */
  lemma OverdueMeaning(z: Zone, now: int, r: TaskRow)
    ensures Matches(z, Overdue(LocalMidnight(z, now)), r) <==>
      r.dueDate.Some? && !r.isCompleted && r.dueDate.value < LocalMidnight(z, now)
  {
  }

  /** The on-time rate is a percentage, and it is 0 when no task is both completed
      and dated. */
  lemma OnTimeRateBounds(z: Zone, rows: seq<TaskRow>, now: int)
    ensures AnalysisOf(z, rows, now).onTimeRate <= 100
    ensures Count(z, rows, CompletedAndDated) == 0 ==> AnalysisOf(z, rows, now).onTimeRate == 0
  {
    FilterStronger(rows, Test(z, CompletedAndDated), Test(z, CompletedOnTime));
  }

  /** When neither completion timestamp is present (the store query selects
      neither column) no completion counts as on time, so the rate is 0. */
  lemma {:induction false} OnTimeRateWithoutTimestamps(z: Zone, rows: seq<TaskRow>, now: int)
    requires forall i :: 0 <= i < |rows| ==> rows[i].completedAt.None? && rows[i].updatedAt.None?
    ensures Count(z, rows, CompletedOnTime) == 0
    ensures AnalysisOf(z, rows, now).onTimeRate == 0
  {
    forall i | 0 <= i < |rows| ensures !Test(z, CompletedOnTime)(rows[i]) {
    }
    FilterNone(rows, Test(z, CompletedOnTime));
  }

  /** The four buckets split the dated tasks: their counts add up to the number
      of tasks with a due date. */
  lemma {:induction false} BucketsSumToDated(z: Zone, rows: seq<TaskRow>)
    ensures var d := TimeDistributionOf(z, rows);
      d.morning + d.afternoon + d.evening + d.night == Count(z, rows, Dated)
  {
    if rows != [] {
      var s, r := rows[..|rows| - 1], rows[|rows| - 1];
      BucketsSumToDated(z, s);
      assert rows == s + [r];
      FilterAppend(s, r, Test(z, Dated));
      FilterAppend(s, r, Test(z, DueInBucket(Morning)));
      FilterAppend(s, r, Test(z, DueInBucket(Afternoon)));
      FilterAppend(s, r, Test(z, DueInBucket(Evening)));
      FilterAppend(s, r, Test(z, DueInBucket(Night)));
    }
  }

  /** Bucket boundaries: hours 6-11 morning, 12-17 afternoon, 18-23 evening, and
      0-5 night. */
  lemma BucketRanges(h: int)
    requires 0 <= h < 24
    ensures BucketOf(h) == Morning <==> 6 <= h < 12
    ensures BucketOf(h) == Afternoon <==> 12 <= h < 18
    ensures BucketOf(h) == Evening <==> 18 <= h
    ensures BucketOf(h) == Night <==> h < 6
  {
  }

  /** For any day, the urgent list is the titles of the overdue tasks followed by
      those of the open tasks due that day, in input order, cut at five. */
  lemma UrgentTasksAt(z: Zone, rows: seq<TaskRow>, today: int)
    ensures var overdue := Select(z, rows, Overdue(today));
      var dueToday := Select(z, rows, OpenDueOnDay(today));
      var u := UrgentTasksOf(z, rows, today);
      |u| == Min(5, |overdue| + |dueToday|)
      && (forall i :: 0 <= i < |u| && i < |overdue| ==> u[i] == overdue[i].title)
      && (forall i :: |overdue| <= i < |u| ==> u[i] == dueToday[i - |overdue|].title)
  {
  }

  /** The urgent list of the analysis: overdue titles, then due-today titles, in
      input order, cut at five. */
  lemma UrgentTasksShape(z: Zone, rows: seq<TaskRow>, now: int)
    ensures var today := LocalMidnight(z, now);
      var overdue := Select(z, rows, Overdue(today));
      var dueToday := Select(z, rows, OpenDueOnDay(today));
      var u := AnalysisOf(z, rows, now).urgentTasks;
      |u| == Min(5, |overdue| + |dueToday|)
      && (forall i :: 0 <= i < |u| && i < |overdue| ==> u[i] == overdue[i].title)
      && (forall i :: |overdue| <= i < |u| ==> u[i] == dueToday[i - |overdue|].title)
  {
    UrgentTasksAt(z, rows, LocalMidnight(z, now));
  }

  /** The scenario of two high-priority tasks, one done yesterday and one open for
      tomorrow: high has 2 tasks, 1 completed, rate 50.  A worked example of
      `PriorityStatsMeaning`, which states the rule for all inputs. */
  lemma HighPriorityScenario(z: Zone, now: int, title: string)
    ensures var today := LocalMidnight(z, now);
      var rows := [TaskRow(title, Some(today - DAY), High, true, None, None, None),
                   TaskRow(title, Some(today + DAY), High, false, None, None, None)];
      PriorityStatsOf(z, rows)[High] == GroupStats(2, 1, 50)
  {
    var today := LocalMidnight(z, now);
    var rows := [TaskRow(title, Some(today - DAY), High, true, None, None, None),
                 TaskRow(title, Some(today + DAY), High, false, None, None, None)];
    assert rows == [] + [rows[0]] + [rows[1]];
    FilterAppend([], rows[0], Test(z, OfPriority(High)));
    FilterAppend([rows[0]], rows[1], Test(z, OfPriority(High)));
    FilterAppend([], rows[0], Test(z, CompletedOfPriority(High)));
    FilterAppend([rows[0]], rows[1], Test(z, CompletedOfPriority(High)));
    assert Count(z, rows, OfPriority(High)) == 2;
    assert Count(z, rows, CompletedOfPriority(High)) == 1;
    assert RoundPercent(1, 2) == 50;
    PriorityStatsMeaning(z, rows, High);
  }

  // ---------------------------------------------------------------------------
  // The endpoint

  /** What the route answers: a failure with its status, the canned empty-period
      reply, or the statistics handed to the language model. */
  datatype Reply =
    | Failure(status: nat, error: string)
    | EmptyPeriod(summary: string, urgentTasks: seq<string>, insights: seq<string>, recommendations: seq<string>)
    | AskModel(period: Period, analysis: Analysis)

  /** The steps before the model call.  The environment, the body parse, the
      signed-in user and the store query are inputs. */
  datatype Request = Request(
    apiKeyPresent: bool,
    bodyIsJson: bool,
    period: Option<string>,
    userPresent: bool,
    queryOk: bool,
    rows: seq<TaskRow>)

  const KeyMissingError := "API 키가 설정되지 않았습니다. 환경 변수 GOOGLE_GENERATIVE_AI_API_KEY를 확인해주세요."
  const BadJsonError := "잘못된 JSON 형식입니다. 올바른 형식으로 요청해주세요."
  const NoUserError := "인증되지 않은 사용자입니다."
  const QueryError := "할일 데이터를 가져오는 중 오류가 발생했습니다."

  /** The summary of the canned reply for a period without tasks. */
  function EmptyMessage(period: Period): string
  {
    match period
    case Today => "오늘 예정된 할일이 없습니다."
    case Week => "이번주 예정된 할일이 없습니다."
  }

  function EmptyReply(period: Period): Reply
  {
    EmptyPeriod(EmptyMessage(period), [], ["새로운 할일을 추가해보세요!"], ["할일을 추가하여 생산성을 높여보세요."])
  }

  /** Every check before the model call passes: the key is set, the body is
      JSON, the period is valid, a user is signed in and the query succeeded. */
  predicate Accepted(req: Request)
  {
    req.apiKeyPresent && req.bodyIsJson && ValidateInput(req.period).Ok? && req.userPresent && req.queryOk
  }

  /** The `POST` handler up to the model call.  Each check fails with its own
      status in the route's order; an accepted request with an empty selection
      gets the canned reply, and any other accepted request goes to the model
      with the analysis of its selection. */
  function HandleSummary(z: Zone, req: Request, now: int): (reply: Reply)
    ensures !req.apiKeyPresent ==> reply == Failure(500, KeyMissingError)
    ensures req.apiKeyPresent && !req.bodyIsJson ==> reply == Failure(400, BadJsonError)
    ensures req.apiKeyPresent && req.bodyIsJson && ValidateInput(req.period).Err? ==>
      reply == Failure(400, PeriodError)
    ensures req.apiKeyPresent && req.bodyIsJson && ValidateInput(req.period).Ok? && !req.userPresent ==>
      reply == Failure(401, NoUserError)
    ensures req.apiKeyPresent && req.bodyIsJson && ValidateInput(req.period).Ok? && req.userPresent && !req.queryOk ==>
      reply == Failure(500, QueryError)
    ensures reply.Failure? <==> !Accepted(req)
    ensures reply.EmptyPeriod? <==>
      Accepted(req) && PreprocessTodoData(z, req.rows, ValidateInput(req.period).value, now) == []
    ensures reply.EmptyPeriod? ==> reply == EmptyReply(ValidateInput(req.period).value)
    ensures reply.AskModel? <==>
      Accepted(req) && PreprocessTodoData(z, req.rows, ValidateInput(req.period).value, now) != []
    ensures reply.AskModel? ==>
      reply.period == ValidateInput(req.period).value
      && reply.analysis == AnalysisOf(z, PreprocessTodoData(z, req.rows, reply.period, now), now)
  {
    if !req.apiKeyPresent then Failure(500, KeyMissingError)
    else if !req.bodyIsJson then Failure(400, BadJsonError)
    else match ValidateInput(req.period)
      case Err(message) => Failure(400, message)
      case Ok(period) =>
        if !req.userPresent then Failure(401, NoUserError)
        else if !req.queryOk then Failure(500, QueryError)
        else
          var filtered := PreprocessTodoData(z, req.rows, period, now);
          if filtered == [] then EmptyReply(period)
          else AskModel(period, AnalysisOf(z, filtered, now))
  }

  /** An accepted request whose period holds no task gets the canned reply for
      that period, with no urgent task and no model call; the week's message
      differs from the day's. */
  lemma EmptyPeriodReply(z: Zone, req: Request, now: int)
    requires Accepted(req)
    requires PreprocessTodoData(z, req.rows, ValidateInput(req.period).value, now) == []
    ensures req.period == Some("today") ==>
      HandleSummary(z, req, now) ==
        EmptyPeriod("오늘 예정된 할일이 없습니다.", [], ["새로운 할일을 추가해보세요!"], ["할일을 추가하여 생산성을 높여보세요."])
    ensures req.period == Some("week") ==>
      HandleSummary(z, req, now) ==
        EmptyPeriod("이번주 예정된 할일이 없습니다.", [], ["새로운 할일을 추가해보세요!"], ["할일을 추가하여 생산성을 높여보세요."])
    ensures HandleSummary(z, req, now).urgentTasks == []
  {
  }

  /** Any period other than the two tokens is refused with status 400 before the
      store is consulted. */
  lemma BadPeriodRejected(z: Zone, req: Request, now: int)
    requires req.apiKeyPresent && req.bodyIsJson
    requires req.period != Some("today") && req.period != Some("week")
    ensures HandleSummary(z, req, now) == Failure(400, PeriodError)
  {
  }

  /** The failure of the model call, by error name and message, in the route's
      order: key error 401, network 503, rate limit or quota 429, otherwise 500
      with the message (or a default) passed through. */
  function ModelFailure(name: string, message: string): (reply: Reply)
    ensures reply.Failure?
    ensures reply.status == 401 <==> name == "AI_LoadAPIKeyError"
    ensures reply.status == 503 <==> name != "AI_LoadAPIKeyError" && name == "AI_NetworkError"
    ensures reply.status == 429 <==>
      name != "AI_LoadAPIKeyError" && name != "AI_NetworkError"
      && (Contains(message, "rate limit") || Contains(message, "quota"))
    ensures reply.status == 500 ==> reply.error == (if message != "" then message else "AI 분석 중 오류가 발생했습니다. 다시 시도해주세요.")
    ensures reply.status in {401, 503, 429, 500}
  {
    if name == "AI_LoadAPIKeyError" then Failure(401, "Google Generative AI API 키가 누락되었거나 잘못되었습니다.")
    else if name == "AI_NetworkError" then Failure(503, "AI 서비스에 연결할 수 없습니다. 잠시 후 다시 시도해주세요.")
    else if Contains(message, "rate limit") || Contains(message, "quota") then
      Failure(429, "AI 서비스 사용량이 초과되었습니다. 잠시 후 다시 시도해주세요.")
    else Failure(500, if message != "" then message else "AI 분석 중 오류가 발생했습니다. 다시 시도해주세요.")
  }
}
