/** The dashboard page (app/page.tsx): the list of to-dos it holds, the handlers
    that update that list after a store call, the filter updates, and the
    counts shown in its statistics panel. */
module MainPage {
  import opened Common
  import opened Types
  import TodoList

  // ---------------------------------------------------------------------------
  // List updates

  /** `prev.map(todo => todo.id === id ? updated : todo)` */
  function ReplaceById(todos: seq<Todo>, id: int, updated: Todo): (r: seq<Todo>)
    ensures |r| == |todos|
  {
    seq(|todos|, i requires 0 <= i < |todos| => if todos[i].id == id then updated else todos[i])
  }

  /** Replacing keeps the length and position of everything, puts `updated` at
      every index whose id matched and leaves every other element alone. */
  lemma ReplaceByIdMeaning(todos: seq<Todo>, id: int, updated: Todo)
    ensures var r := ReplaceById(todos, id, updated);
      |r| == |todos|
      && (forall i :: 0 <= i < |todos| && todos[i].id == id ==> r[i] == updated)
      && (forall i :: 0 <= i < |todos| && todos[i].id != id ==> r[i] == todos[i])
  {
  }

  /** A todo whose id differs from `id`. */
  function IdIsNot(id: int): Todo -> bool
  {
    (t: Todo) => t.id != id
  }

  /** `prev.filter(todo => todo.id !== id)` */
  function RemoveById(todos: seq<Todo>, id: int): seq<Todo>
  {
    Filter(todos, IdIsNot(id))
  }

  /** Removing drops every todo with the id and keeps the others in order. */
  lemma RemoveByIdMeaning(todos: seq<Todo>, id: int)
    ensures var r := RemoveById(todos, id);
      IsSubsequence(r, todos)
      && (forall i :: 0 <= i < |r| ==> r[i].id != id)
      && (forall i :: 0 <= i < |todos| && todos[i].id != id ==> todos[i] in r)
      && |r| <= |todos|
  {
    FilterIsSubsequence(todos, IdIsNot(id));
    FilterMembers(todos, IdIsNot(id));
  }

  /** Removing an id that no todo has changes nothing. */
  lemma {:induction false} RemoveAbsentId(todos: seq<Todo>, id: int)
    requires forall i :: 0 <= i < |todos| ==> todos[i].id != id
    ensures RemoveById(todos, id) == todos
  {
    if todos != [] {
      RemoveAbsentId(todos[..|todos| - 1], id);
      assert todos == todos[..|todos| - 1] + [todos[|todos| - 1]];
    }
  }

  // ---------------------------------------------------------------------------
  // Filter updates

  /** One field of an object spread over the filters: absent, or present with
      a value that may itself be `undefined`. */
  datatype Patch<T> = Absent | Present(value: Option<T>)

  function Overlay<T>(old_: Option<T>, p: Patch<T>): (r: Option<T>)
    ensures p.Absent? ==> r == old_
    ensures p.Present? ==> r == p.value
  {
    if p.Present? then p.value else old_
  }

  datatype FilterPatch = FilterPatch(
    search: Patch<string>,
    priority: Patch<Priority>,
    categoryId: Patch<int>,
    isCompleted: Patch<bool>,
    isOverdue: Patch<bool>)

  /** `{ ...prev, ...newFilters }` */
  function Merge(prev: TodoFilters, p: FilterPatch): TodoFilters
  {
    TodoFilters(
      Overlay(prev.search, p.search),
      Overlay(prev.priority, p.priority),
      Overlay(prev.categoryId, p.categoryId),
      Overlay(prev.isCompleted, p.isCompleted),
      Overlay(prev.isOverdue, p.isOverdue))
  }

  /** Merging an empty patch changes nothing, and merging twice is merging
      once. */
  lemma MergeLaws(prev: TodoFilters, p: FilterPatch)
    ensures Merge(prev, FilterPatch(Absent, Absent, Absent, Absent, Absent)) == prev
    ensures Merge(Merge(prev, p), p) == Merge(prev, p)
  {
  }

  // ---------------------------------------------------------------------------
  // Statistics

  datatype Stats = Stats(total: nat, completed: nat, pending: nat, overdue: nat)

  function OverdueNow(now: int): Todo -> bool
  {
    (t: Todo) => TodoList.IsOverdueAt(t, now)
  }

  /** `todoStats` */
  function TodoStats(todos: seq<Todo>, now: int): Stats
  {
    Stats(|todos|, |Filter(todos, TodoList.IsCompleted())|, |Filter(todos, TodoList.IsPending())|,
          |Filter(todos, OverdueNow(now))|)
  }

  /** Completed and pending add up to the total, and no more todos are overdue
      than pending. */
  lemma StatsConsistent(todos: seq<Todo>, now: int)
    ensures var st := TodoStats(todos, now);
      st.completed + st.pending == st.total && st.overdue <= st.pending
  {
    FilterPartition(todos, TodoList.IsPending(), TodoList.IsCompleted());
    FilterStronger(todos, TodoList.IsPending(), OverdueNow(now));
  }

  /** `Math.round((completed / total) * 100) || 0`: NaN for an empty list
      becomes 0. */
  function CompletionPercent(st: Stats): nat
  {
    RoundPercent(st.completed, st.total)
  }

  lemma CompletionPercentBounds(todos: seq<Todo>, now: int)
    ensures var st := TodoStats(todos, now);
      CompletionPercent(st) <= 100
      && (st.total == 0 ==> CompletionPercent(st) == 0)
      && (st.total > 0 ==> 2 * st.total * CompletionPercent(st) <= 200 * st.completed + st.total
                             < 2 * st.total * (CompletionPercent(st) + 1))
  {
    StatsConsistent(todos, now);
    var st := TodoStats(todos, now);
    if st.total > 0 {
      RoundPercentNearest(st.completed, st.total);
    }
  }

  // ---------------------------------------------------------------------------
  // The page state

  /** The outcome of a store call: the returned row, or a thrown value whose
      message is `None` when it is not an `Error`. */
  datatype Outcome<T> = Done(value: T) | Thrown(message: Option<string>)

  const CreateFailed := "할일을 추가하는데 실패했습니다."
  const UpdateFailed := "할일을 수정하는데 실패했습니다."
  const ToggleFailed := "할일 상태를 변경하는데 실패했습니다."
  const DeleteFailed := "할일을 삭제하는데 실패했습니다."

  class Page {
    var todos: seq<Todo>
    var filters: TodoFilters
    var editingTodo: Option<Todo>
    var showTodoForm: bool
    var error: Option<string>

    constructor()
      ensures todos == [] && filters == NoFilters && editingTodo.None? && !showTodoForm && error.None?
    {
      todos := [];
      filters := NoFilters;
      editingTodo := None;
      showTodoForm := false;
      error := None;
    }

    /** `handleCreateTodo`: the new row goes first. */
    method CreateTodo(created: Outcome<Todo>)
      modifies this
      ensures created.Done? ==> todos == [created.value] + old(todos) && !showTodoForm && error.None?
      ensures created.Thrown? ==> todos == old(todos) && showTodoForm == old(showTodoForm)
                                  && error == Some(ErrorText(created.message, CreateFailed))
      ensures filters == old(filters) && editingTodo == old(editingTodo)
    {
      match created {
        case Done(t) =>
          todos := [t] + todos;
          showTodoForm := false;
          error := None;
        case Thrown(message) =>
          error := Some(ErrorText(message, CreateFailed));
      }
    }

    /** `handleUpdateTodo`: nothing happens when no todo is being edited. */
    method UpdateTodo(updated: Outcome<Todo>)
      modifies this
      ensures old(editingTodo).None? ==>
        todos == old(todos) && editingTodo == old(editingTodo) && showTodoForm == old(showTodoForm) && error == old(error)
      ensures old(editingTodo).Some? && updated.Done? ==>
        todos == ReplaceById(old(todos), old(editingTodo).value.id, updated.value)
        && editingTodo.None? && !showTodoForm && error.None?
      ensures old(editingTodo).Some? && updated.Thrown? ==>
        todos == old(todos) && editingTodo == old(editingTodo) && showTodoForm == old(showTodoForm)
        && error == Some(ErrorText(updated.message, UpdateFailed))
      ensures filters == old(filters)
    {
      if editingTodo.None? {
        return;
      }
      match updated {
        case Done(t) =>
          todos := ReplaceById(todos, editingTodo.value.id, t);
          editingTodo := None;
          showTodoForm := false;
          error := None;
        case Thrown(message) =>
          error := Some(ErrorText(message, UpdateFailed));
      }
    }

    /** `handleToggleComplete` */
    method ToggleComplete(id: int, toggled: Outcome<Todo>)
      modifies this
      ensures toggled.Done? ==> todos == ReplaceById(old(todos), id, toggled.value) && error.None?
      ensures toggled.Thrown? ==> todos == old(todos) && error == Some(ErrorText(toggled.message, ToggleFailed))
      ensures filters == old(filters) && editingTodo == old(editingTodo) && showTodoForm == old(showTodoForm)
    {
      match toggled {
        case Done(t) =>
          todos := ReplaceById(todos, id, t);
          error := None;
        case Thrown(message) =>
          error := Some(ErrorText(message, ToggleFailed));
      }
    }

    /** `handleDeleteTodo`: `confirmed` is the answer to the confirmation
      dialog, `failure` what the store call threw, if anything. */
    method DeleteTodo(id: int, confirmed: bool, failure: Option<Option<string>>)
      modifies this
      ensures !confirmed ==> todos == old(todos) && error == old(error)
      ensures confirmed && failure.None? ==> todos == RemoveById(old(todos), id) && error.None?
      ensures confirmed && failure.Some? ==>
        todos == old(todos) && error == Some(ErrorText(failure.value, DeleteFailed))
      ensures filters == old(filters) && editingTodo == old(editingTodo) && showTodoForm == old(showTodoForm)
    {
      if confirmed {
        if failure.None? {
          todos := RemoveById(todos, id);
          error := None;
        } else {
          error := Some(ErrorText(failure.value, DeleteFailed));
        }
      }
    }

    /** `handleSearch`: only the search text changes. */
    method HandleSearch(term: string)
      modifies this
      ensures filters == old(filters).(search := Some(term))
      ensures todos == old(todos) && editingTodo == old(editingTodo) && error == old(error)
      ensures showTodoForm == old(showTodoForm)
    {
      filters := filters.(search := Some(term));
    }

    /** `handleFilterChange`: the given fields overlay the current ones. */
    method HandleFilterChange(p: FilterPatch)
      modifies this
      ensures filters == Merge(old(filters), p)
      ensures todos == old(todos) && editingTodo == old(editingTodo) && error == old(error)
      ensures showTodoForm == old(showTodoForm)
    {
      filters := Merge(filters, p);
    }

    /** The toolbar's callback: `setFilters`. */
    method SetFilters(f: TodoFilters)
      modifies this
      ensures filters == f
      ensures todos == old(todos) && editingTodo == old(editingTodo) && error == old(error)
      ensures showTodoForm == old(showTodoForm)
    {
      filters := f;
    }
  }
}
