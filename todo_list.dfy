/** The list view's derived data (components/todo/TodoList.tsx): the filter
    predicate, the comparator and the stable in-place sort, and the
    pending/completed/overdue split of the sorted list. */
module TodoList {
  import opened Common
  import opened Types
  import opened StableSort

  // ---------------------------------------------------------------------------
  // Filtering

  /** Case-insensitive substring search in the title, or in a non-empty
      description. */
  predicate MatchesSearch(t: Todo, search: string)
  {
    var q := Lower(search);
    Contains(Lower(t.title), q)
    || (t.description.Some? && t.description.value != "" && Contains(Lower(t.description.value), q))
  }

  /** Open, dated, and due strictly before `now`. */
  predicate IsOverdueAt(t: Todo, now: int)
  {
    !t.isCompleted && t.dueDate.Some? && t.dueDate.value < now
  }

  /** The overdue test as written: `!is_completed && due_date && due < now` is
      `false` for a completed todo, `undefined` for an open undated one, and the
      comparison otherwise; it is then compared with the flag by `!==`, and
      `undefined` equals neither `true` nor `false`. */
  predicate OverdueTestAsWritten(flag: bool, t: Todo, now: int)
  {
    if t.isCompleted then flag == false
    else if t.dueDate.None? then false
    else flag == (t.dueDate.value < now)
  }

  /** The overdue test as intended: the flag agrees with being overdue. */
  predicate OverdueTest(flag: bool, t: Todo, now: int)
  {
    flag == IsOverdueAt(t, now)
  }

  /** The tests other than the overdue one; an empty search and a category id of
      0 are falsy, so they switch their test off. */
  predicate MatchesOtherFilters(t: Todo, f: TodoFilters)
  {
    (f.search.Some? && f.search.value != "" ==> MatchesSearch(t, f.search.value))
    && (f.priority.Some? ==> t.priority == f.priority.value)
    && (f.categoryId.Some? && f.categoryId.value != 0 ==> t.categoryId == f.categoryId)
    && (f.isCompleted.Some? ==> t.isCompleted == f.isCompleted.value)
  }

  /** The filter callback exactly as written. */
  predicate MatchesFiltersAsWritten(t: Todo, f: TodoFilters, now: int)
  {
    MatchesOtherFilters(t, f) && (f.isOverdue.Some? ==> OverdueTestAsWritten(f.isOverdue.value, t, now))
  }

  /** The filter callback with the overdue test corrected; the rest of the model
      uses this one. */
  predicate MatchesFilters(t: Todo, f: TodoFilters, now: int)
  {
    MatchesOtherFilters(t, f) && (f.isOverdue.Some? ==> OverdueTest(f.isOverdue.value, t, now))
  }

  function Keeps(f: TodoFilters, now: int): Todo -> bool
  {
    t => MatchesFilters(t, f, now)
  }

  /** The filter callback of the code as written. */
  function KeepsAsWritten(f: TodoFilters, now: int): Todo -> bool
  {
    t => MatchesFiltersAsWritten(t, f, now)
  }

  /** With `is_overdue: false`, the code as written drops an open todo without a
      due date although it is not overdue; the corrected test keeps it. */
  lemma OverdueFalseDropsUndated(t: Todo, now: int)
    requires !t.isCompleted && t.dueDate.None?
    ensures !MatchesFiltersAsWritten(t, NoFilters.(isOverdue := Some(false)), now)
    ensures MatchesFilters(t, NoFilters.(isOverdue := Some(false)), now)
  {
  }

  /** The two tests agree whenever the flag is absent or `true`, which is all the
      toolbar ever sets. */
  lemma AsWrittenAgreesUnlessFalse(t: Todo, f: TodoFilters, now: int)
    requires f.isOverdue != Some(false)
    ensures MatchesFiltersAsWritten(t, f, now) <==> MatchesFilters(t, f, now)
  {
  }

  /** Filtering with the written test and with the corrected one gives the same
      list whenever the flag is absent or `true`. */
  lemma {:induction false} FilterAgreesUnlessFalse(todos: seq<Todo>, f: TodoFilters, now: int)
    requires f.isOverdue != Some(false)
    ensures Filter(todos, KeepsAsWritten(f, now)) == Filter(todos, Keeps(f, now))
  {
    if todos != [] {
      FilterAgreesUnlessFalse(todos[..|todos| - 1], f, now);
      AsWrittenAgreesUnlessFalse(todos[|todos| - 1], f, now);
    }
  }

  /** With `is_overdue` set, a todo passes that test exactly when its being
      overdue equals the flag. */
  lemma OverdueFilterMeaning(t: Todo, f: TodoFilters, now: int)
    requires f.isOverdue.Some?
    ensures MatchesFilters(t, f, now) ==> IsOverdueAt(t, now) == f.isOverdue.value
    ensures MatchesOtherFilters(t, f) && IsOverdueAt(t, now) == f.isOverdue.value ==> MatchesFilters(t, f, now)
  {
  }

  /** The filter keeps, in input order, exactly the todos that pass every active
      test. */
  lemma FilterKeepsExactly(todos: seq<Todo>, f: TodoFilters, now: int)
    ensures var kept := Filter(todos, Keeps(f, now));
      IsSubsequence(kept, todos)
      && (forall i :: 0 <= i < |kept| ==> MatchesFilters(kept[i], f, now))
      && (forall i :: 0 <= i < |todos| && MatchesFilters(todos[i], f, now) ==> todos[i] in kept)
  {
    FilterIsSubsequence(todos, Keeps(f, now));
    FilterMembers(todos, Keeps(f, now));
  }

  /** No active filter keeps everything. */
  lemma NoFiltersKeepAll(todos: seq<Todo>, now: int)
    ensures Filter(todos, Keeps(NoFilters, now)) == todos
  {
    FilterAll(todos, Keeps(NoFilters, now));
  }

  lemma {:induction false} FilterAll(s: seq<Todo>, p: Todo -> bool)
    requires forall i :: 0 <= i < |s| ==> p(s[i])
    ensures Filter(s, p) == s
  {
    if s != [] {
      FilterAll(s[..|s| - 1], p);
    }
  }

  /** The search ignores the case of the query: typing it in lower or upper
      case keeps the same todos, and a title hit alone is enough. */
  lemma SearchIgnoresCase(t: Todo, search: string)
    ensures MatchesSearch(t, search) == MatchesSearch(t, Lower(search))
    ensures MatchesSearch(t, search) == MatchesSearch(t, Upper(search))
    ensures Contains(Lower(t.title), Lower(search)) ==> MatchesSearch(t, search)
  {
    LowerTwice(search);
    LowerOfUpper(search);
  }

  // ---------------------------------------------------------------------------
  // Comparator

  /** A sort key: a number, or `Infinity` for a todo without a due date. */
  datatype ExtInt = Fin(v: int) | PosInf

  /** `priorityOrder`: high 3, medium 2, low 1. */
  function Weight(p: Priority): int
  {
    match p
    case High => 3
    case Medium => 2
    case Low => 1
  }

  function KeyOf(t: Todo, key: SortKey): ExtInt
  {
    match key
    case ByPriority => Fin(Weight(t.priority))
    case ByDueDate => if t.dueDate.Some? then Fin(t.dueDate.value) else PosInf
    case ByCreatedAt => Fin(t.createdAt)
  }

  /** The sign of `x - y` as the sort reads it.  `Infinity - Infinity` is NaN,
      which the sort treats as 0. */
  function CompareKeys(x: ExtInt, y: ExtInt): int
  {
    match (x, y)
    case (Fin(a), Fin(b)) => if a < b then -1 else if a > b then 1 else 0
    case (Fin(_), PosInf) => -1
    case (PosInf, Fin(_)) => 1
    case (PosInf, PosInf) => 0
  }

  /** The comparator's sign: negated for a descending sort. */
  function Compare(a: Todo, b: Todo, sort: TodoSort): int
  {
    var c := CompareKeys(KeyOf(a, sort.key), KeyOf(b, sort.key));
    if sort.direction == Desc then -c else c
  }

  // ---------------------------------------------------------------------------
  // Sorting

  /** The comparator read as a rank: ascending keeps the key and puts
      `Infinity` on top, descending negates it, so `Infinity` goes to the
      bottom. */
  function RankOf(t: Todo, sort: TodoSort): Rank
  {
    match (KeyOf(t, sort.key), sort.direction)
    case (Fin(v), Asc) => At(v)
    case (Fin(v), Desc) => At(-v)
    case (PosInf, Asc) => Top
    case (PosInf, Desc) => Bottom
  }

  function TodoKey(sort: TodoSort): Todo -> Rank
  {
    t => RankOf(t, sort)
  }

  /** The comparator's sign is the order of the two ranks. */
  lemma CompareIsRankOrder(a: Todo, b: Todo, sort: TodoSort)
    ensures Compare(a, b, sort) < 0 <==> Less(RankOf(a, sort), RankOf(b, sort))
    ensures Compare(a, b, sort) == 0 <==> RankOf(a, sort) == RankOf(b, sort)
    ensures Compare(a, b, sort) > 0 <==> Less(RankOf(b, sort), RankOf(a, sort))
  {
  }

  /** The sorted list is ordered by the comparator: no later todo compares
      below an earlier one. */
  lemma SortedByComparator(s: seq<Todo>, sort: TodoSort)
    ensures var r := SortSpec(s, TodoKey(sort));
      forall i, j :: 0 <= i < j < |r| ==> Compare(r[i], r[j], sort) <= 0
  {
    var r := SortSpec(s, TodoKey(sort));
    SortSpecSorted(s, TodoKey(sort));
    forall i, j | 0 <= i < j < |r| ensures Compare(r[i], r[j], sort) <= 0 {
      CompareIsRankOrder(r[i], r[j], sort);
      LessOrder(RankOf(r[i], sort), RankOf(r[j], sort), RankOf(r[i], sort));
    }
  }

  /** Sorting reorders without adding or losing todos. */
  lemma SortPermutes(s: seq<Todo>, sort: TodoSort)
    ensures multiset(SortSpec(s, TodoKey(sort))) == multiset(s)
    ensures |SortSpec(s, TodoKey(sort))| == |s|
  {
    SortSpecPermutes(s, TodoKey(sort));
  }

  /** The todos that compare equal to `x` keep their relative order. */
  lemma SortIsStable(s: seq<Todo>, x: Todo, sort: TodoSort)
    ensures Filter(SortSpec(s, TodoKey(sort)), KeyIs(RankOf(x, sort), TodoKey(sort))) ==
      Filter(s, KeyIs(RankOf(x, sort), TodoKey(sort)))
    ensures forall y :: KeyIs(RankOf(x, sort), TodoKey(sort))(y) <==> Compare(y, x, sort) == 0
  {
    SortSpecStable(s, RankOf(x, sort), TodoKey(sort));
    forall y ensures KeyIs(RankOf(x, sort), TodoKey(sort))(y) <==> Compare(y, x, sort) == 0 {
      CompareIsRankOrder(y, x, sort);
    }
  }

  /** `filteredAndSortedTodos`: filter into a fresh array, then sort it.  The
      filter is the corrected one; it is the code's own whenever the overdue flag
      is not `false`. */
  method FilteredAndSortedTodos(todos: seq<Todo>, f: TodoFilters, sort: TodoSort, now: int)
    returns (r: seq<Todo>)
    ensures r == SortSpec(Filter(todos, Keeps(f, now)), TodoKey(sort))
    ensures f.isOverdue != Some(false) ==> r == SortSpec(Filter(todos, KeepsAsWritten(f, now)), TodoKey(sort))
  {
    if f.isOverdue != Some(false) {
      FilterAgreesUnlessFalse(todos, f, now);
    }
    var filtered := Filter(todos, Keeps(f, now));
    var a := new Todo[|filtered|](i requires 0 <= i < |filtered| => filtered[i]);
    assert a[..] == filtered;
    SortInPlace(a, TodoKey(sort));
    r := a[..];
  }

  /** Ascending by priority puts low before medium before high; descending
      reverses that. */
  lemma PrioritySortOrder(s: seq<Todo>, dir: SortDirection)
    ensures var r := SortSpec(s, TodoKey(TodoSort(ByPriority, dir)));
      forall i, j :: 0 <= i < j < |r| ==>
        if dir == Asc then Weight(r[i].priority) <= Weight(r[j].priority)
        else Weight(r[i].priority) >= Weight(r[j].priority)
  {
    SortSpecSorted(s, TodoKey(TodoSort(ByPriority, dir)));
  }

  /** Ascending by due date puts undated todos last; descending puts them
      first. */
  lemma UndatedSortPosition(s: seq<Todo>, dir: SortDirection)
    ensures var r := SortSpec(s, TodoKey(TodoSort(ByDueDate, dir)));
      forall i, j :: 0 <= i < j < |r| ==>
        if dir == Asc then (r[i].dueDate.None? ==> r[j].dueDate.None?)
        else (r[j].dueDate.None? ==> r[i].dueDate.None?)
  {
    SortSpecSorted(s, TodoKey(TodoSort(ByDueDate, dir)));
  }

  /** Two undated todos compare equal by due date, so they keep their order. */
  lemma UndatedCompareEqual(a: Todo, b: Todo, dir: SortDirection)
    requires a.dueDate.None? && b.dueDate.None?
    ensures Compare(a, b, TodoSort(ByDueDate, dir)) == 0
  {
  }

  // ---------------------------------------------------------------------------
  // Status split

  datatype StatusLists = StatusLists(pending: seq<Todo>, completed: seq<Todo>, overdue: seq<Todo>)

  function IsPending(): Todo -> bool { (t: Todo) => !t.isCompleted }
  function IsCompleted(): Todo -> bool { (t: Todo) => t.isCompleted }
  function IsPastDue(now: int): Todo -> bool { (t: Todo) => t.dueDate.Some? && t.dueDate.value < now }

  /** `todosByStatus` */
  function TodosByStatus(sorted: seq<Todo>, now: int): StatusLists
  {
    var pending := Filter(sorted, IsPending());
    StatusLists(pending, Filter(sorted, IsCompleted()), Filter(pending, IsPastDue(now)))
  }

  /** Pending and completed split the sorted list, each in its order. */
  lemma StatusPartition(sorted: seq<Todo>, now: int)
    ensures var st := TodosByStatus(sorted, now);
      |st.pending| + |st.completed| == |sorted|
      && multiset(st.pending) + multiset(st.completed) == multiset(sorted)
      && IsSubsequence(st.pending, sorted) && IsSubsequence(st.completed, sorted)
  {
    FilterPartition(sorted, IsPending(), IsCompleted());
    FilterIsSubsequence(sorted, IsPending());
    FilterIsSubsequence(sorted, IsCompleted());
  }

  /** Overdue is an ordered part of pending holding exactly its past-due
      todos, and each of them is overdue. */
  lemma OverdueSublist(sorted: seq<Todo>, now: int)
    ensures var st := TodosByStatus(sorted, now);
      IsSubsequence(st.overdue, st.pending)
      && (forall i :: 0 <= i < |st.overdue| ==> IsOverdueAt(st.overdue[i], now))
      && (forall i :: 0 <= i < |sorted| && IsOverdueAt(sorted[i], now) ==> sorted[i] in st.overdue)
  {
    var pending := Filter(sorted, IsPending());
    FilterIsSubsequence(pending, IsPastDue(now));
    FilterMembers(sorted, IsPending());
    FilterMembers(pending, IsPastDue(now));
    forall i | 0 <= i < |sorted| && IsOverdueAt(sorted[i], now)
      ensures sorted[i] in Filter(pending, IsPastDue(now))
    {
      var k :| 0 <= k < |pending| && pending[k] == sorted[i];
    }
  }
}
