/** The records of lib/types.ts: a to-do item, its category, the list filters and
    the sort order.  ISO 8601 date strings are carried as millisecond timestamps. */
module Types {
  import opened Common

  datatype Priority = High | Medium | Low

  /** The string stored for a priority. */
  function PriorityName(p: Priority): string
  {
    match p
    case High => "high"
    case Medium => "medium"
    case Low => "low"
  }

  /** Reads a priority string; anything outside the three names is `None`. */
  function ParsePriority(s: string): (r: Option<Priority>)
    ensures r.Some? <==> s in {"high", "medium", "low"}
    ensures r.Some? ==> PriorityName(r.value) == s
  {
    if s == "high" then Some(High)
    else if s == "medium" then Some(Medium)
    else if s == "low" then Some(Low)
    else None
  }

  lemma PriorityRoundTrip(p: Priority)
    ensures ParsePriority(PriorityName(p)) == Some(p)
  {
  }

  datatype Category = Category(id: int, name: string)

  datatype Todo = Todo(
    id: int,
    userId: string,
    title: string,
    description: Option<string>,
    dueDate: Option<int>,
    priority: Priority,
    categoryId: Option<int>,
    category: Option<Category>,
    categories: Option<Category>,   // the joined row returned by the store
    isCompleted: bool,
    createdAt: int,
    updatedAt: int)

  datatype CreateTodoData = CreateTodoData(
    title: string,
    description: Option<string>,
    dueDate: Option<string>,
    priority: Priority,
    categoryId: Option<int>)

  /** Absent fields are `None` (JavaScript `undefined`). */
  datatype TodoFilters = TodoFilters(
    search: Option<string>,
    priority: Option<Priority>,
    categoryId: Option<int>,
    isCompleted: Option<bool>,
    isOverdue: Option<bool>)

  const NoFilters := TodoFilters(None, None, None, None, None)

  datatype SortKey = ByPriority | ByDueDate | ByCreatedAt
  datatype SortDirection = Asc | Desc
  datatype TodoSort = TodoSort(key: SortKey, direction: SortDirection)
}
