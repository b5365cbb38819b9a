/** One to-do card (components/todo/TodoCard.tsx): the priority badge, the
    overdue flag, the days left until the due date and the label built from
    them, and the category label. */
module TodoCard {
  import opened Common
  import opened Types
  import LocalTime
  import TodoList

  /** `getPriorityColor`, over the stored priority text. */
  function PriorityColor(p: string): (r: string)
    ensures p == "high" ==> r == "bg-red-500 text-white"
    ensures p == "medium" ==> r == "bg-amber-500 text-white"
    ensures p == "low" ==> r == "bg-emerald-500 text-white"
    ensures p !in {"high", "medium", "low"} ==> r == "bg-slate-500 text-white"
  {
    if p == "high" then "bg-red-500 text-white"
    else if p == "medium" then "bg-amber-500 text-white"
    else if p == "low" then "bg-emerald-500 text-white"
    else "bg-slate-500 text-white"
  }

  /** `getPriorityText`: an unknown priority is shown as it is. */
  function PriorityText(p: string): (r: string)
    ensures p == "high" ==> r == "높음"
    ensures p == "medium" ==> r == "중간"
    ensures p == "low" ==> r == "낮음"
    ensures p !in {"high", "medium", "low"} ==> r == p
  {
    if p == "high" then "높음"
    else if p == "medium" then "중간"
    else if p == "low" then "낮음"
    else p
  }

  /** The three priorities get three different colours and three different
      texts, none of them the fallback. */
  lemma PriorityBadgesDistinct(p: Priority, q: Priority)
    ensures p != q ==> PriorityColor(PriorityName(p)) != PriorityColor(PriorityName(q))
    ensures p != q ==> PriorityText(PriorityName(p)) != PriorityText(PriorityName(q))
    ensures PriorityColor(PriorityName(p)) != "bg-slate-500 text-white"
  {
  }

  /** `isOverdue` of the card is the list's overdue test. */
  predicate IsOverdue(t: Todo, now: int)
  {
    !t.isCompleted && t.dueDate.Some? && t.dueDate.value < now
  }

  lemma CardAgreesWithList(t: Todo, now: int)
    ensures IsOverdue(t, now) <==> TodoList.IsOverdueAt(t, now)
  {
  }

  /** `Math.ceil(a / b)` for a positive `b`. */
  function CeilDiv(a: int, b: int): (q: int)
    requires b > 0
    ensures b * (q - 1) < a <= b * q
  {
    -((-a) / b)
  }

  /** `getDaysUntilDue`: `None` (null) without a due date. */
  function DaysUntilDue(t: Todo, now: int): (r: Option<int>)
    ensures r.None? <==> t.dueDate.None?
    ensures r.Some? ==> LocalTime.DAY * (r.value - 1) < t.dueDate.value - now <= LocalTime.DAY * r.value
  {
    if t.dueDate.None? then None else Some(CeilDiv(t.dueDate.value - now, LocalTime.DAY))
  }

  /** Due within the next day counts as 0 days when it is already past by less
      than a day or due right now, and as 1 when it is later within 24 hours. */
  lemma DaysUntilDueSmall(t: Todo, now: int)
    requires t.dueDate.Some?
    ensures -LocalTime.DAY < t.dueDate.value - now <= 0 <==> DaysUntilDue(t, now) == Some(0)
    ensures 0 < t.dueDate.value - now <= LocalTime.DAY <==> DaysUntilDue(t, now) == Some(1)
  {
  }

  /** The text in parentheses after the due date; `None` when it is not shown. */
  function DueLabel(t: Todo, now: int): (r: Option<string>)
    ensures r.None? <==> t.dueDate.None?
  {
    var days := DaysUntilDue(t, now);
    if days.None? then None
    else if IsOverdue(t, now) then Some("지연됨")
    else if days.value == 0 then Some("오늘")
    else if days.value == 1 then Some("내일")
    else Some("D-" + IntToString(days.value))
  }

  /** The label's cases: overdue first, then today, tomorrow, and `D-n` for any
      other `n`, negative `n` included for a completed past-due todo. */
  lemma DueLabelCases(t: Todo, now: int)
    requires t.dueDate.Some?
    ensures IsOverdue(t, now) ==> DueLabel(t, now) == Some("지연됨")
    ensures !IsOverdue(t, now) && DaysUntilDue(t, now) == Some(0) ==> DueLabel(t, now) == Some("오늘")
    ensures !IsOverdue(t, now) && DaysUntilDue(t, now) == Some(1) ==> DueLabel(t, now) == Some("내일")
    ensures !IsOverdue(t, now) && DaysUntilDue(t, now).value !in {0, 1} ==>
      DueLabel(t, now) == Some("D-" + IntToString(DaysUntilDue(t, now).value))
  {
  }

  /** An open todo that is past due is labelled overdue, never "D-n"; a
      completed one past due by more than a day gets a negative count. */
  lemma PastDueLabels(t: Todo, now: int)
    requires t.dueDate.Some? && t.dueDate.value < now
    ensures !t.isCompleted ==> DueLabel(t, now) == Some("지연됨")
    ensures t.isCompleted && t.dueDate.value - now <= -LocalTime.DAY ==>
      DaysUntilDue(t, now).value < 0 && DueLabel(t, now) == Some("D-" + IntToString(DaysUntilDue(t, now).value))
  {
  }

  /** `obj?.name || ...`: a category's name when it has a non-empty one. */
  function NameOf(c: Option<Category>): Option<string>
  {
    if c.Some? && c.value.name != "" then Some(c.value.name) else None
  }

  /** The category label: shown only when one of the two category objects is
      present, with the first non-empty name, else '카테고리 없음'. */
  function CategoryLabel(t: Todo): (r: Option<string>)
    ensures r.None? <==> t.category.None? && t.categories.None?
    ensures r.Some? && NameOf(t.category).Some? ==> r.value == t.category.value.name
    ensures r.Some? && NameOf(t.category).None? && NameOf(t.categories).Some? ==> r.value == t.categories.value.name
    ensures r.Some? && NameOf(t.category).None? && NameOf(t.categories).None? ==> r.value == "카테고리 없음"
  {
    if t.category.None? && t.categories.None? then None
    else if NameOf(t.category).Some? then NameOf(t.category)
    else if NameOf(t.categories).Some? then NameOf(t.categories)
    else Some("카테고리 없음")
  }
}
