/**
 * The todo list component (`TodoList`): a local copy of the signed-in user's todos
 * that each handler updates after the matching service call succeeds.
 *
 * The list operations are pure sequence transformers. Each handler is modelled
 * together with the service call it awaits, over a `World` that pairs the server
 * table with the component state, so that the local copy can be compared with what
 * a fresh fetch would return.
 */
module TodoList {
  import opened Wrappers
  import opened Text
  import Seqs
  import opened TodoService

  /** The message each failing handler shows. */
  datatype TodoError = FetchFailed | AddFailed | UpdateFailed | DeleteFailed | ToggleAllFailed | ClearFailed

  function ErrorMessage(e: TodoError): string {
    match e
    case FetchFailed => "Failed to fetch todos"
    case AddFailed => "Failed to add todo"
    case UpdateFailed => "Failed to update todo"
    case DeleteFailed => "Failed to delete todo"
    case ToggleAllFailed => "Failed to toggle all todos"
    case ClearFailed => "Failed to clear completed todos"
  }

  /** The component state: the list, the text box, the spinner flag and the error banner. */
  datatype TodoListState = TodoListState(todos: seq<Todo>, newTodo: string, loading: bool, error: Option<TodoError>)

  /** The server table and the component, side by side. */
  datatype World = World(table: Table, ui: TodoListState)

  const Mounted := TodoListState([], "", true, None)

  // ---------------------------------------------------------------------------
  // Pure list operations
  // ---------------------------------------------------------------------------

  function IsActive(t: Todo): bool { !t.completed }

  /** `activeCount`: the number of todos not yet completed. */
  function ActiveCount(todos: seq<Todo>): (n: nat)
    ensures n <= |todos|
    ensures n == 0 <==> forall i :: 0 <= i < |todos| ==> todos[i].completed
    ensures n == |set i | 0 <= i < |todos| && !todos[i].completed|
  {
    var active := Seqs.Filter(todos, IsActive);
    Seqs.CountIndices(todos, IsActive);
    assert Seqs.Indices(todos, IsActive) == set i | 0 <= i < |todos| && !todos[i].completed;
    assert forall i :: 0 <= i < |todos| && !todos[i].completed ==> todos[i] in active;
    assert |active| > 0 ==> active[0] in todos && !active[0].completed;
    |active|
  }

  /** `todos.every(todo => todo.completed)`, true for the empty list. */
  predicate AllCompleted(todos: seq<Todo>) {
    forall i :: 0 <= i < |todos| ==> todos[i].completed
  }

  /** `todos.map(todo => todo.id === id ? updated : todo)`. */
  function ReplaceById(todos: seq<Todo>, id: string, updated: Todo): (r: seq<Todo>)
    ensures |r| == |todos|
    ensures forall i :: 0 <= i < |todos| && todos[i].id == id ==> r[i] == updated
    ensures forall i :: 0 <= i < |todos| && todos[i].id != id ==> r[i] == todos[i]
  {
    Seqs.Map(todos, (t: Todo) => if t.id == id then updated else t)
  }

  /** `todos.filter(todo => todo.id !== id)`. */
  function RemoveById(todos: seq<Todo>, id: string): (r: seq<Todo>)
    ensures forall t :: t in r <==> t in todos && t.id != id
    ensures Seqs.IsSubsequence(r, todos)
  {
    Seqs.FilterIsSubsequence(todos, IdIsNot(id));
    Seqs.Filter(todos, IdIsNot(id))
  }

  /** Sets every todo's flag, keeping ids, titles and order. */
  function SetAllCompleted(todos: seq<Todo>, completed: bool): (r: seq<Todo>)
    ensures |r| == |todos|
    ensures forall i :: 0 <= i < |todos| ==> r[i] == todos[i].(completed := completed)
  {
    Seqs.Map(todos, (t: Todo) => t.(completed := completed))
  }

  /** `todos.filter(todo => !todo.completed)`. */
  function RemoveCompleted(todos: seq<Todo>): (r: seq<Todo>)
    ensures forall t :: t in r <==> t in todos && !t.completed
    ensures Seqs.IsSubsequence(r, todos)
  {
    Seqs.FilterIsSubsequence(todos, IsActive);
    Seqs.Filter(todos, IsActive)
  }

  // ---------------------------------------------------------------------------
  // Handlers, each with the service call it makes
  // ---------------------------------------------------------------------------

  /** `fetchTodos`: the fetched list replaces the local one and clears the error. */
  function FetchTodos(w: World, userId: string, fault: Option<string>): (r: World)
    ensures r.table == w.table && !r.ui.loading && r.ui.newTodo == w.ui.newTodo
    ensures fault.None? ==> r.ui.todos == UserView(w.table, userId) && r.ui.error.None?
    ensures fault.Some? ==> r.ui.todos == w.ui.todos && r.ui.error == Some(FetchFailed)
  {
    match FetchUserTodos(w.table, userId, fault)
    case Ok(todos) => w.(ui := w.ui.(todos := todos, error := None, loading := false))
    case Failed(_) => w.(ui := w.ui.(error := Some(FetchFailed), loading := false))
  }

  /**
   * `handleAddTodo`: a blank text box does nothing; otherwise the trimmed text is
   * created as an open todo, which is put first and the text box cleared.
   * `id` and `now` are what the backend assigns to the new row.
   */
  function AddTodo(w: World, userId: string, id: string, now: int, fault: Option<string>): (r: World)
    ensures IsBlank(w.ui.newTodo) ==> r == w
    ensures !IsBlank(w.ui.newTodo) && fault.None? ==>
      && r.table == w.table + [Todo(id, userId, Trim(w.ui.newTodo), false, now, now)]
      && r.ui == w.ui.(todos := [Todo(id, userId, Trim(w.ui.newTodo), false, now, now)] + w.ui.todos, newTodo := "")
    // A failed call keeps the list and the typed text, and shows the error.
    ensures !IsBlank(w.ui.newTodo) && fault.Some? ==> r == w.(ui := w.ui.(error := Some(AddFailed)))
  {
    var title := Trim(w.ui.newTodo);
    if title == "" then w
    else
      var o := CreateTodo(w.table, NewTodo(userId, title, false), id, now, fault);
      match o.result
      case Ok(todo) => World(o.table, w.ui.(todos := [todo] + w.ui.todos, newTodo := ""))
      case Failed(_) => World(o.table, w.ui.(error := Some(AddFailed)))
  }

  /** The `Partial<Todo>` the toggle handler sends: the completion flag only. */
  function FlagOnly(completed: bool): TodoUpdates {
    TodoUpdates(None, None, None, Some(completed), None, None)
  }

  /** `handleToggleTodo`: the row the server returns replaces the local entry with that id. */
  function ToggleTodo(w: World, id: string, completed: bool, now: int, fault: Option<string>): (r: World)
    ensures r.ui.newTodo == w.ui.newTodo && r.ui.loading == w.ui.loading
    ensures
      var o := UpdateTodo(w.table, id, FlagOnly(completed), now, fault);
      && r.table == o.table
      && (o.result.Ok? ==> r.ui.todos == ReplaceById(w.ui.todos, id, o.result.value) && r.ui.error == w.ui.error)
      && (o.result.Failed? ==> r.ui.todos == w.ui.todos && r.ui.error == Some(UpdateFailed))
  {
    var o := UpdateTodo(w.table, id, FlagOnly(completed), now, fault);
    match o.result
    case Ok(updated) => World(o.table, w.ui.(todos := ReplaceById(w.ui.todos, id, updated)))
    case Failed(_) => World(o.table, w.ui.(error := Some(UpdateFailed)))
  }

  /** `handleDeleteTodo`. */
  function DeleteOne(w: World, id: string, fault: Option<string>): (r: World)
    ensures r.table == DeleteTodo(w.table, id, fault).table
    ensures fault.None? ==> r.ui == w.ui.(todos := RemoveById(w.ui.todos, id))
    ensures fault.Some? ==> r.ui == w.ui.(error := Some(DeleteFailed))
  {
    var o := DeleteTodo(w.table, id, fault);
    match o.result
    case Ok(_) => World(o.table, w.ui.(todos := RemoveById(w.ui.todos, id)))
    case Failed(_) => World(o.table, w.ui.(error := Some(DeleteFailed)))
  }

  /**
   * `handleToggleAll`: if every todo is completed (vacuously so for none) all are
   * reopened, otherwise all are completed, on the server and locally.
   */
  function ToggleAll(w: World, userId: string, now: int, fault: Option<string>): (r: World)
    ensures r.table == ToggleAllTodos(w.table, userId, !AllCompleted(w.ui.todos), now, fault).table
    ensures fault.None? ==> r.ui == w.ui.(todos := SetAllCompleted(w.ui.todos, !AllCompleted(w.ui.todos)))
    ensures fault.Some? ==> r.ui == w.ui.(error := Some(ToggleAllFailed))
  {
    var target := !AllCompleted(w.ui.todos);
    var o := ToggleAllTodos(w.table, userId, target, now, fault);
    match o.result
    case Ok(_) => World(o.table, w.ui.(todos := SetAllCompleted(w.ui.todos, target)))
    case Failed(_) => World(o.table, w.ui.(error := Some(ToggleAllFailed)))
  }

  /** `handleClearCompleted`. */
  function ClearCompleted(w: World, userId: string, fault: Option<string>): (r: World)
    ensures r.table == ClearCompletedTodos(w.table, userId, fault).table
    ensures fault.None? ==> r.ui == w.ui.(todos := RemoveCompleted(w.ui.todos))
    ensures fault.Some? ==> r.ui == w.ui.(error := Some(ClearFailed))
  {
    var o := ClearCompletedTodos(w.table, userId, fault);
    match o.result
    case Ok(_) => World(o.table, w.ui.(todos := RemoveCompleted(w.ui.todos)))
    case Failed(_) => World(o.table, w.ui.(error := Some(ClearFailed)))
  }

  // ---------------------------------------------------------------------------
  // Properties of the list operations
  // ---------------------------------------------------------------------------

  /** After toggle-all, either nothing or everything is active. */
  lemma ToggleAllActiveCount(todos: seq<Todo>)
    ensures var r := SetAllCompleted(todos, !AllCompleted(todos));
      ActiveCount(r) == 0 || ActiveCount(r) == |todos|
  {
    var r := SetAllCompleted(todos, !AllCompleted(todos));
    if AllCompleted(todos) {
      KeepAll(r, IsActive);
    }
  }

  /** Toggle-all twice restores every flag when the list was uniformly completed. */
  lemma ToggleAllTwice(todos: seq<Todo>)
    requires AllCompleted(todos) || forall i :: 0 <= i < |todos| ==> !todos[i].completed
    ensures var once := SetAllCompleted(todos, !AllCompleted(todos));
      SetAllCompleted(once, !AllCompleted(once)) == todos
  {
    var once := SetAllCompleted(todos, !AllCompleted(todos));
    if |todos| > 0 {
      if !AllCompleted(todos) {
        assert !todos[0].completed;
      } else {
        assert !once[0].completed;
      }
    }
  }

  /** Clearing completed todos keeps the active count and leaves nothing completed. */
  lemma ClearKeepsActiveCount(todos: seq<Todo>)
    ensures ActiveCount(RemoveCompleted(todos)) == ActiveCount(todos)
    ensures forall t :: t in RemoveCompleted(todos) ==> !t.completed
  {
    KeepAll(Seqs.Filter(todos, IsActive), IsActive);
  }

  // ---------------------------------------------------------------------------
  // The local list agrees with the server
  // ---------------------------------------------------------------------------

  /** The local list is what a fetch for the user would return. */
  predicate InSync(w: World, userId: string) {
    w.ui.todos == UserView(w.table, userId)
  }

  /** A new todo whose timestamp is later than all of the user's rows stays in sync. */
  lemma AddInSync(w: World, userId: string, id: string, now: int, fault: Option<string>)
    requires InSync(w, userId)
    requires forall t :: t in w.table && t.userId == userId ==> t.createdAt < now
    ensures InSync(AddTodo(w, userId, id, now, fault), userId)
  {
    if !IsBlank(w.ui.newTodo) && fault.None? {
      var row := Todo(id, userId, Trim(w.ui.newTodo), false, now, now);
      var mine := Seqs.Filter(w.table, OfUser(userId));
      Seqs.FilterAppend(w.table, [row], OfUser(userId));
      assert Seqs.Filter([row], OfUser(userId)) == [row];
      Seqs.SortNewest(mine, row, CreatedAt);
    }
  }

  /** Patching rows commutes with taking a user's view. */
  lemma PatchedView(table: Table, userId: string, id: string, patch: Patch)
    ensures UserView(Seqs.Map(table, PatchRow(id, patch)), userId)
         == Seqs.Map(UserView(table, userId), PatchRow(id, patch))
  {
    var f := PatchRow(id, patch);
    Seqs.FilterMap(table, OfUser(userId), f);
    Seqs.SortMap(Seqs.Filter(table, OfUser(userId)), CreatedAt, f);
  }

  /** Toggling one todo keeps the local list in sync, whichever user's row the id names. */
  lemma ToggleInSync(w: World, userId: string, id: string, completed: bool, now: int, fault: Option<string>)
    requires InSync(w, userId) && UniqueIds(w.table)
    ensures InSync(ToggleTodo(w, id, completed, now, fault), userId)
  {
    var o := UpdateTodo(w.table, id, FlagOnly(completed), now, fault);
    if o.result.Ok? {
      var patch := BuildPatch(FlagOnly(completed), now);
      var f := PatchRow(id, patch);
      assert o.table == Seqs.Map(w.table, f);
      PatchedView(w.table, userId, id, patch);
      var todos := w.ui.todos;
      var local := ReplaceById(todos, id, o.result.value);
      forall i | 0 <= i < |todos|
        ensures local[i] == f(todos[i])
      {
        if todos[i].id == id {
          var j :| 0 <= j < |w.table| && w.table[j] == todos[i];
        }
      }
      assert local == Seqs.Map(todos, f);
    }
  }

  /** Deleting keeps the local list in sync. */
  lemma DeleteInSync(w: World, userId: string, id: string, fault: Option<string>)
    requires InSync(w, userId)
    ensures InSync(DeleteOne(w, id, fault), userId)
  {
    if fault.None? {
      Seqs.FilterCommute(w.table, IdIsNot(id), OfUser(userId));
      Seqs.SortFilter(Seqs.Filter(w.table, OfUser(userId)), CreatedAt, IdIsNot(id));
    }
  }

  /** Clearing completed todos keeps the local list in sync. */
  lemma ClearInSync(w: World, userId: string, fault: Option<string>)
    requires InSync(w, userId)
    ensures InSync(ClearCompleted(w, userId, fault), userId)
  {
    if fault.None? {
      var both := (t: Todo) => t.userId == userId && !t.completed;
      Seqs.FilterFilter(w.table, NotClearedFor(userId), OfUser(userId), both);
      Seqs.FilterFilter(w.table, OfUser(userId), IsActive, both);
      Seqs.SortFilter(Seqs.Filter(w.table, OfUser(userId)), CreatedAt, IsActive);
    }
  }

  /**
   * Toggle-all keeps the local list in sync except for `updatedAt`: the server
   * stamps every toggled row, the local copy keeps the old stamps.
   */
  lemma ToggleAllInSync(w: World, userId: string, now: int, fault: Option<string>)
    requires InSync(w, userId)
    ensures var r := ToggleAll(w, userId, now, fault);
      fault.None? ==> UserView(r.table, userId) == Seqs.Map(r.ui.todos, (t: Todo) => t.(updatedAt := now))
    ensures fault.Some? ==> InSync(ToggleAll(w, userId, now, fault), userId)
  {
    if fault.None? {
      var target := !AllCompleted(w.ui.todos);
      ToggledView(w.table, userId, target, now);
      var local := SetAllCompleted(w.ui.todos, target);
      assert Seqs.Map(local, (t: Todo) => t.(updatedAt := now))
          == Seqs.Map(w.ui.todos, ToggleRow(userId, target, now));
    }
  }

  /** Toggling all of a user's rows commutes with taking that user's view. */
  lemma ToggledView(table: Table, userId: string, completed: bool, now: int)
    ensures UserView(Seqs.Map(table, ToggleRow(userId, completed, now)), userId)
         == Seqs.Map(UserView(table, userId), ToggleRow(userId, completed, now))
  {
    var f := ToggleRow(userId, completed, now);
    Seqs.FilterMap(table, OfUser(userId), f);
    Seqs.SortMap(Seqs.Filter(table, OfUser(userId)), CreatedAt, f);
  }

  /** Every failing handler leaves the table and the list as they were. */
  lemma FailureChangesNothing(w: World, userId: string, id: string, completed: bool, now: int, message: string)
    ensures var r := AddTodo(w, userId, id, now, Some(message)); r.table == w.table && r.ui.todos == w.ui.todos
    ensures var r := ToggleTodo(w, id, completed, now, Some(message));
      r.table == w.table && r.ui.todos == w.ui.todos && r.ui.error == Some(UpdateFailed)
    ensures var r := DeleteOne(w, id, Some(message)); r.table == w.table && r.ui.todos == w.ui.todos
    ensures var r := ToggleAll(w, userId, now, Some(message)); r.table == w.table && r.ui.todos == w.ui.todos
    ensures var r := ClearCompleted(w, userId, Some(message)); r.table == w.table && r.ui.todos == w.ui.todos
  {
  }
}
