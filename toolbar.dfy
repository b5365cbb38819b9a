/** The toolbar (components/layout/Toolbar.tsx): the filter records its handlers
    build, the count of active filters, the value shown by the status select,
    and the text value of the sort select. */
module Toolbar {
  import opened Common
  import opened Types

  // ---------------------------------------------------------------------------
  // Filter handlers

  /** `handleSearchChange`: `value || undefined`. */
  function SearchChange(f: TodoFilters, value: string): (r: TodoFilters)
    ensures r == f.(search := r.search)
    ensures r.search.None? <==> value == ""
    ensures r.search.Some? ==> r.search.value == value
  {
    f.(search := if value == "" then None else Some(value))
  }

  /** `handlePriorityFilterChange`: "all" clears the priority, a priority name
      sets it. */
  function PriorityFilterChange(f: TodoFilters, value: string): (r: TodoFilters)
    requires value == "all" || ParsePriority(value).Some?
    ensures r == f.(priority := r.priority)
    ensures r.priority.None? <==> value == "all"
    ensures r.priority.Some? ==> PriorityName(r.priority.value) == value
  {
    f.(priority := if value == "all" then None else ParsePriority(value))
  }

  /** The two flags `handleStatusFilterChange` assigns for a select value. */
  function StatusFlags(value: string): (Option<bool>, Option<bool>)
  {
    if value == "completed" then (Some(true), None)
    else if value == "pending" then (Some(false), None)
    else if value == "overdue" then (None, Some(true))
    else (None, None)
  }

  /** `handleStatusFilterChange` */
  function StatusFilterChange(f: TodoFilters, value: string): (r: TodoFilters)
    ensures r == f.(isCompleted := r.isCompleted, isOverdue := r.isOverdue)
  {
    var (completed, overdue) := StatusFlags(value);
    f.(isCompleted := completed, isOverdue := overdue)
  }

  /** The table of the status handler: what each value sets, leaving every
      other field alone. */
  lemma StatusTable(f: TodoFilters, value: string)
    ensures var r := StatusFilterChange(f, value);
      r.search == f.search && r.priority == f.priority && r.categoryId == f.categoryId
      && (value == "completed" ==> r.isCompleted == Some(true) && r.isOverdue.None?)
      && (value == "pending" ==> r.isCompleted == Some(false) && r.isOverdue.None?)
      && (value == "overdue" ==> r.isCompleted.None? && r.isOverdue == Some(true))
      && (value !in {"completed", "pending", "overdue"} ==> r.isCompleted.None? && r.isOverdue.None?)
  {
  }

  /** `clearFilters` */
  const Cleared := NoFilters

  /** One for every field that is not `undefined`, `null` or `""`. */
  function ActiveFilterCount(f: TodoFilters): (n: nat)
    ensures n <= 5
    ensures n == 0 <==> (f.search.None? || f.search == Some("")) && f.priority.None? && f.categoryId.None?
                        && f.isCompleted.None? && f.isOverdue.None?
  {
    (if f.search.Some? && f.search.value != "" then 1 else 0)
    + (if f.priority.Some? then 1 else 0)
    + (if f.categoryId.Some? then 1 else 0)
    + (if f.isCompleted.Some? then 1 else 0)
    + (if f.isOverdue.Some? then 1 else 0)
  }

  /** No filter is active after clearing, and `is_completed: false` does
      count. */
  lemma ActiveFilterFacts(f: TodoFilters)
    ensures ActiveFilterCount(Cleared) == 0
    ensures ActiveFilterCount(StatusFilterChange(f, "pending")) >= 1
    ensures ActiveFilterCount(SearchChange(f, "")) <= ActiveFilterCount(f)
  {
  }

  // ---------------------------------------------------------------------------
  // The status select

  /** The value shown by the status select. */
  function StatusValue(f: TodoFilters): string
  {
    if f.isOverdue == Some(true) then "overdue"
    else if f.isCompleted == Some(true) then "completed"
    else if f.isCompleted == Some(false) then "pending"
    else "all"
  }

  /** Choosing any of the four options shows that option again. */
  lemma StatusRoundTrip(f: TodoFilters, value: string)
    requires value in {"all", "pending", "completed", "overdue"}
    ensures StatusValue(StatusFilterChange(f, value)) == value
  {
  }

  /** Any other value shows "all". */
  lemma StatusOtherShowsAll(f: TodoFilters, value: string)
    requires value !in {"pending", "completed", "overdue"}
    ensures StatusValue(StatusFilterChange(f, value)) == "all"
  {
  }

  // ---------------------------------------------------------------------------
  // The sort select

  function SortKeyName(k: SortKey): string
  {
    match k
    case ByPriority => "priority"
    case ByDueDate => "due_date"
    case ByCreatedAt => "created_at"
  }

  function DirectionName(d: SortDirection): string
  {
    match d
    case Asc => "asc"
    case Desc => "desc"
  }

  /** `${sort.key}-${sort.direction}` */
  function SortValue(s: TodoSort): string
  {
    SortKeyName(s.key) + "-" + DirectionName(s.direction)
  }

  function ParseSortKey(s: string): Option<SortKey>
  {
    if s == "priority" then Some(ByPriority)
    else if s == "due_date" then Some(ByDueDate)
    else if s == "created_at" then Some(ByCreatedAt)
    else None
  }

  function ParseDirection(s: string): Option<SortDirection>
  {
    if s == "asc" then Some(Asc) else if s == "desc" then Some(Desc) else None
  }

  /** `const [key, direction] = value.split('-')`, read back as a sort; `None`
      when the pieces are not a key and a direction. */
  function SortFromValue(value: string): Option<TodoSort>
  {
    var pieces := Split(value, '-');
    if |pieces| < 2 then None
    else
      var k := ParseSortKey(pieces[0]);
      var d := ParseDirection(pieces[1]);
      if k.Some? && d.Some? then Some(TodoSort(k.value, d.value)) else None
  }

  /** Splitting the select value on '-' gives back the key and the direction of
      all six options. */
  lemma SortRoundTrip(s: TodoSort)
    ensures Split(SortValue(s), '-') == [SortKeyName(s.key), DirectionName(s.direction)]
    ensures SortFromValue(SortValue(s)) == Some(s)
  {
    var k, d := SortKeyName(s.key), DirectionName(s.direction);
    assert '-' !in k;
    assert '-' !in d;
    SplitConcat(k, d, '-');
    SplitConcat(d, "", '-');
    KeyNameRoundTrip(s.key);
    DirectionNameRoundTrip(s.direction);
  }

  lemma KeyNameRoundTrip(k: SortKey)
    ensures ParseSortKey(SortKeyName(k)) == Some(k)
  {
  }

  lemma DirectionNameRoundTrip(d: SortDirection)
    ensures ParseDirection(DirectionName(d)) == Some(d)
  {
  }
}
