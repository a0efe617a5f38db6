/**
 * The todo service (`services/todoService.ts`): six queries against the hosted
 * `todos` table, modelled over an abstract table held as a sequence of rows.
 *
 * A row and the `Todo` the service returns carry the same six fields, so one
 * datatype serves for both; timestamps are integers. What the backend decides on
 * its own — a fresh id, the clock, and whether the call fails — is passed in:
 * `fault` is `Some(message)` exactly when the backend answers with an error, in
 * which case the service rethrows (`Failed`) and the table is unchanged.
 */
module TodoService {
  import opened Wrappers
  import Seqs

  datatype Todo = Todo(id: string, userId: string, title: string, completed: bool, createdAt: int, updatedAt: int)

  type Table = seq<Todo>

  /** The result of a query: the table afterwards, and what the service function returns or throws. */
  datatype Outcome<T> = Outcome(table: Table, result: Reply<T>)

  /** The backend's answer to `.single()` when the statement touches no row or several. */
  const NoSingleRow := "no single row"

  predicate UniqueIds(table: Table) {
    forall i, j :: 0 <= i < j < |table| ==> table[i].id != table[j].id
  }

  function CreatedAt(t: Todo): int { t.createdAt }

  /** The `.eq('user_id', userId)` filter. */
  function OfUser(userId: string): Todo -> bool {
    (t: Todo) => t.userId == userId
  }

  /** The `.eq('id', id)` filter. */
  function IdIs(id: string): Todo -> bool {
    (t: Todo) => t.id == id
  }

  /** The rows a `.delete().eq('id', id)` keeps. */
  function IdIsNot(id: string): Todo -> bool {
    (t: Todo) => t.id != id
  }

  /** The rows `clearCompletedTodos` keeps: all but the user's completed ones. */
  function NotClearedFor(userId: string): Todo -> bool {
    (t: Todo) => !(t.userId == userId && t.completed)
  }

  /** One user's rows, newest first: what `fetchUserTodos` reads. */
  function UserView(table: Table, userId: string): (r: seq<Todo>)
    ensures forall i :: 0 <= i < |r| ==> r[i].userId == userId && r[i] in table
    ensures forall t :: t in table && t.userId == userId ==> t in r
    ensures multiset(r) == multiset(Seqs.Filter(table, OfUser(userId)))
    ensures Seqs.SortedDesc(r, CreatedAt)
  {
    var mine := Seqs.Filter(table, OfUser(userId));
    var r := Seqs.SortDesc(mine, CreatedAt);
    Seqs.FilterMembers(table, OfUser(userId));
    Seqs.SameMembers(r, mine);
    assert forall i :: 0 <= i < |r| ==> r[i] in mine && OfUser(userId)(r[i]);
    r
  }

  /** `fetchUserTodos`: every row of the user, ordered by `created_at` descending. */
  function FetchUserTodos(table: Table, userId: string, fault: Option<string>): (r: Reply<seq<Todo>>)
    ensures fault.Some? <==> r.Failed?
    ensures r.Ok? ==> r.value == UserView(table, userId)
  {
    match fault
    case Some(message) => Failed(message)
    case None => Ok(UserView(table, userId))
  }

  /** What `createTodo` is given: a todo without id and timestamps. */
  datatype NewTodo = NewTodo(userId: string, title: string, completed: bool)

  /**
   * `createTodo`: inserts exactly the user, title and completion flag; the backend
   * assigns `id` and stamps both timestamps with `now`, and the inserted row is returned.
   */
  function CreateTodo(table: Table, todo: NewTodo, id: string, now: int, fault: Option<string>): (r: Outcome<Todo>)
    ensures fault.Some? ==> r == Outcome(table, Failed(fault.value))
    ensures fault.None? ==>
      && r.result == Ok(Todo(id, todo.userId, todo.title, todo.completed, now, now))
      && r.table == table + [r.result.value]
  {
    match fault
    case Some(message) => Outcome(table, Failed(message))
    case None =>
      var row := Todo(id, todo.userId, todo.title, todo.completed, now, now);
      Outcome(table + [row], Ok(row))
  }

  /** The fields a caller may pass to `updateTodo` (`Partial<Todo>`). */
  datatype TodoUpdates = TodoUpdates(
    id: Option<string>, userId: Option<string>, title: Option<string>,
    completed: Option<bool>, createdAt: Option<int>, updatedAt: Option<int>)

  /** The columns an update writes: title and completion only when given, the timestamp always. */
  datatype Patch = Patch(title: Option<string>, completed: Option<bool>, updatedAt: int)

  /** The `updateData` object of `updateTodo`. */
  function BuildPatch(updates: TodoUpdates, now: int): (p: Patch)
    ensures p.title == updates.title && p.completed == updates.completed
    // A caller's own `updatedAt` is ignored: the clock always wins.
    ensures p.updatedAt == now
  {
    Patch(updates.title, updates.completed, now)
  }

  /** Writes the patch's columns into a row. */
  function ApplyPatch(t: Todo, p: Patch): (r: Todo)
    ensures r.id == t.id && r.userId == t.userId && r.createdAt == t.createdAt
    ensures r.title == (if p.title.Some? then p.title.value else t.title)
    ensures r.completed == (if p.completed.Some? then p.completed.value else t.completed)
    ensures r.updatedAt == p.updatedAt
  {
    t.(title := p.title.GetOr(t.title), completed := p.completed.GetOr(t.completed), updatedAt := p.updatedAt)
  }

  function HasId(table: Table, id: string): (n: nat) {
    Seqs.Count(table, IdIs(id))
  }

  /**
   * `updateTodo`: patches the row with the given id and returns it. With `.single()`
   * the statement fails, and changes nothing, unless exactly one row matches.
   */
  function UpdateTodo(table: Table, id: string, updates: TodoUpdates, now: int, fault: Option<string>): (r: Outcome<Todo>)
    ensures r.result.Failed? ==> r.table == table
    ensures fault.Some? ==> r.result == Failed(fault.value)
    ensures fault.None? && HasId(table, id) != 1 ==> r.result == Failed(NoSingleRow)
    ensures r.result.Ok? ==> fault.None? && HasId(table, id) == 1
    ensures r.result.Ok? ==>
      && |r.table| == |table|
      && (forall i :: 0 <= i < |table| && table[i].id != id ==> r.table[i] == table[i])
      && (forall i :: 0 <= i < |table| && table[i].id == id ==>
            r.table[i] == ApplyPatch(table[i], BuildPatch(updates, now)) == r.result.value)
  {
    if fault.Some? then Outcome(table, Failed(fault.value))
    else if HasId(table, id) != 1 then Outcome(table, Failed(NoSingleRow))
    else
      var patch := BuildPatch(updates, now);
      var updated := Seqs.Map(table, PatchRow(id, patch));
      var hits := Seqs.Filter(table, IdIs(id));
      assert hits[0] in table && hits[0].id == id;
      var k :| 0 <= k < |table| && table[k].id == id;
      SingleMatch(table, id, k);
      Outcome(updated, Ok(updated[k]))
  }

  /** The row update `updateTodo` applies. */
  function PatchRow(id: string, patch: Patch): Todo -> Todo {
    (t: Todo) => if t.id == id then ApplyPatch(t, patch) else t
  }

  /** With one matching row, every matching index is that row's index. */
  lemma SingleMatch(table: Table, id: string, k: nat)
    requires HasId(table, id) == 1 && k < |table| && table[k].id == id
    ensures forall i :: 0 <= i < |table| && table[i].id == id ==> i == k
  {
    forall i | 0 <= i < |table| && table[i].id == id ensures i == k {
      if i != k {
        var lo, hi := if i < k then i else k, if i < k then k else i;
        CountTwo(table, IdIs(id), lo, hi);
      }
    }
  }

  /** Two distinct matching indices make the count at least two. */
  lemma {:induction false} CountTwo<T>(s: seq<T>, p: T -> bool, i: nat, j: nat)
    requires i < j < |s| && p(s[i]) && p(s[j])
    ensures Seqs.Count(s, p) >= 2
  {
    if i == 0 {
      assert s[1..][j - 1] == s[j];
      assert s[j] in Seqs.Filter(s[1..], p);
    } else {
      CountTwo(s[1..], p, i - 1, j - 1);
    }
  }

  /** `deleteTodo`: removes the rows with the given id; removing none is not an error. */
  function DeleteTodo(table: Table, id: string, fault: Option<string>): (r: Outcome<bool>)
    ensures fault.Some? ==> r == Outcome(table, Failed(fault.value))
    ensures fault.None? ==> r.result == Ok(true)
    ensures fault.None? ==> forall t :: t in r.table <==> t in table && t.id != id
    ensures Seqs.IsSubsequence(r.table, table)
  {
    match fault
    case Some(message) =>
      Seqs.SubsequenceOfItself(table);
      Outcome(table, Failed(message))
    case None =>
      Seqs.FilterIsSubsequence(table, IdIsNot(id));
      Outcome(Seqs.Filter(table, IdIsNot(id)), Ok(true))
  }

  /** `toggleAllTodos`: every row of the user gets the flag and a fresh timestamp. */
  function ToggleAllTodos(table: Table, userId: string, completed: bool, now: int, fault: Option<string>): (r: Outcome<bool>)
    ensures fault.Some? ==> r == Outcome(table, Failed(fault.value))
    ensures fault.None? ==> r.result == Ok(true) && |r.table| == |table|
    ensures fault.None? ==> forall i :: 0 <= i < |table| ==>
      r.table[i] == if table[i].userId == userId then table[i].(completed := completed, updatedAt := now) else table[i]
  {
    match fault
    case Some(message) => Outcome(table, Failed(message))
    case None =>
      Outcome(Seqs.Map(table, ToggleRow(userId, completed, now)), Ok(true))
  }

  /** The row update `toggleAllTodos` applies. */
  function ToggleRow(userId: string, completed: bool, now: int): Todo -> Todo {
    (t: Todo) => if t.userId == userId then t.(completed := completed, updatedAt := now) else t
  }

  /** `clearCompletedTodos`: deletes exactly the user's completed rows. */
  function ClearCompletedTodos(table: Table, userId: string, fault: Option<string>): (r: Outcome<bool>)
    ensures fault.Some? ==> r == Outcome(table, Failed(fault.value))
    ensures fault.None? ==> r.result == Ok(true)
    ensures fault.None? ==> forall t :: t in r.table <==> t in table && !(t.userId == userId && t.completed)
    ensures Seqs.IsSubsequence(r.table, table)
  {
    match fault
    case Some(message) =>
      Seqs.SubsequenceOfItself(table);
      Outcome(table, Failed(message))
    case None =>
      Seqs.FilterIsSubsequence(table, NotClearedFor(userId));
      Outcome(Seqs.Filter(table, NotClearedFor(userId)), Ok(true))
  }

  // ---------------------------------------------------------------------------
  // Other users' rows
  // ---------------------------------------------------------------------------

  /** Toggling all of one user's rows leaves every other user's view as it was. */
  lemma ToggleAllIsolated(table: Table, userId: string, other: string, completed: bool, now: int, fault: Option<string>)
    requires other != userId
    ensures UserView(ToggleAllTodos(table, userId, completed, now, fault).table, other) == UserView(table, other)
  {
    if fault.None? {
      var mine := OfUser(other);
      var f := ToggleRow(userId, completed, now);
      Seqs.FilterMap(table, mine, f);
      var rows := Seqs.Filter(table, mine);
      assert Seqs.Map(rows, f) == rows;
    }
  }

  /** Clearing one user's completed rows leaves every other user's view as it was. */
  lemma ClearCompletedIsolated(table: Table, userId: string, other: string, fault: Option<string>)
    requires other != userId
    ensures UserView(ClearCompletedTodos(table, userId, fault).table, other) == UserView(table, other)
  {
    if fault.None? {
      var mine := OfUser(other);
      var keep := NotClearedFor(userId);
      Seqs.FilterCommute(table, keep, mine);
      var rows := Seqs.Filter(table, mine);
      KeepAll(rows, keep);
    }
  }

  /** Filtering by a predicate every element meets changes nothing. */
  lemma {:induction false} KeepAll<T>(s: seq<T>, p: T -> bool)
    requires forall i :: 0 <= i < |s| ==> p(s[i])
    ensures Seqs.Filter(s, p) == s
  {
    if |s| > 0 {
      KeepAll(s[1..], p);
      assert s == [s[0]] + s[1..];
    }
  }

  /** A fresh id keeps ids unique. */
  lemma CreateKeepsIdsUnique(table: Table, todo: NewTodo, id: string, now: int, fault: Option<string>)
    requires UniqueIds(table)
    requires forall t :: t in table ==> t.id != id
    ensures UniqueIds(CreateTodo(table, todo, id, now, fault).table)
  {
  }
}
