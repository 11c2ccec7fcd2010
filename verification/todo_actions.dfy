/**
 * The todo store and the actions that act on it
 * (the CreateTodo, UpdateTodo, DeleteTodo and GetTodo actions): create, update, delete, get.
 */
module TodoActions {
  import opened Wrappers
  import opened Enums
  import opened Models
  import opened Requests

  /**
   * What `CreateTodoAction::handle` reads from its `$data`, with null and a
   * missing key both None. `userId` is a client-supplied `user_id`, which
   * the action never reads.
   */
  datatype CreateData = CreateData(
    title: string,
    description: Option<string>,
    dueDate: Option<Day>,
    isCompleted: Option<bool>,
    targetTime: Option<Time>,
    priority: Option<TaskPriority>,
    userId: Option<int>)

  /**
   * The row `create` inserts: the title as given, the defaults of the
   * action for the rest, the owner forced to the acting user, both
   * timestamps set to `now`.
   */
  function NewRecord(id: int, user: User, data: CreateData, now: int): (t: Todo)
    ensures t.id == id && t.userId == user.id && t.title == data.title
    ensures t.createdAt == now && t.updatedAt == now
    ensures data.description.None? ==> t.description.None?
    ensures data.dueDate.None? ==> t.dueDate.None?
    ensures data.targetTime.None? ==> t.targetTime.None?
    ensures data.isCompleted.None? ==> !t.isCompleted
    ensures data.priority.None? ==> t.priority == Low
  {
    Todo(
      id,
      user.id,
      data.title,
      data.description,
      data.isCompleted.GetOr(false),
      data.dueDate,
      data.targetTime,
      data.priority.GetOr(Low),
      now,
      now)
  }

  /** The owner of a new row does not depend on any `user_id` in the input. */
  lemma OwnerCannotBeSpoofed(id: int, user: User, data: CreateData, forged: int, now: int)
    ensures NewRecord(id, user, data.(userId := Some(forged)), now) == NewRecord(id, user, data, now)
    ensures NewRecord(id, user, data.(userId := Some(forged)), now).userId == user.id
  {
  }

  /** Every client-supplied field comes back unchanged from the new row. */
  lemma CreateKeepsGivenFields(id: int, user: User, data: CreateData, now: int)
    ensures var t := NewRecord(id, user, data, now);
            && t.title == data.title
            && (data.description.Some? ==> t.description == data.description)
            && (data.dueDate.Some? ==> t.dueDate == data.dueDate)
            && (data.targetTime.Some? ==> t.targetTime == data.targetTime)
            && (data.isCompleted.Some? ==> t.isCompleted == data.isCompleted.value)
            && (data.priority.Some? ==> t.priority == data.priority.value)
  {
  }

  /**
   * The five attributes `UpdateTodoAction::handle` writes, each the
   * validated value when there is one and the stored value otherwise.
   * `target_time`, id, owner and `created_at` are not touched.
   */
  function Assigned(t: Todo, d: UpdateData): (r: Todo)
    ensures r.id == t.id && r.userId == t.userId && r.targetTime == t.targetTime
    ensures r.createdAt == t.createdAt && r.updatedAt == t.updatedAt
    ensures r.title == (if d.title.Some? then d.title.value else t.title)
    ensures r.description == (if d.description.Some? then d.description else t.description)
    ensures r.dueDate == (if d.dueDate.Some? then d.dueDate else t.dueDate)
    ensures r.isCompleted == (if d.isCompleted.Some? then d.isCompleted.value else t.isCompleted)
    ensures r.priority == (if d.priority.Some? then d.priority.value else t.priority)
  {
    t.(title := d.title.GetOr(t.title),
       description := if d.description.Some? then d.description else t.description,
       dueDate := if d.dueDate.Some? then d.dueDate else t.dueDate,
       isCompleted := d.isCompleted.GetOr(t.isCompleted),
       priority := d.priority.GetOr(t.priority))
  }

  /**
   * The row after `$todo->update([...])`: the assigned attributes, with
   * `updated_at` moved to `now` only when some attribute actually changed
   * (an unchanged model is not saved).
   */
  function Merged(t: Todo, d: UpdateData, now: int): (r: Todo)
    ensures r.(updatedAt := t.updatedAt) == Assigned(t, d)
    ensures r.updatedAt == (if Assigned(t, d) == t then t.updatedAt else now)
  {
    var a := Assigned(t, d);
    if a == t then t else a.(updatedAt := now)
  }

  /** An update with no values leaves the row exactly as it was. */
  lemma EmptyUpdateIsIdentity(t: Todo, now: int)
    ensures Merged(t, EmptyUpdate, now) == t
  {
  }

  /** Applying the same validated data twice is applying it once. */
  lemma UpdateIdempotent(t: Todo, d: UpdateData, now: int)
    ensures Merged(Merged(t, d, now), d, now) == Merged(t, d, now)
  {
    var once := Merged(t, d, now);
    assert Assigned(once, d) == once;
  }

  /**
   * Whatever target time the body carries, the update keeps the stored
   * one, and an explicit null description or due date keeps the stored
   * value instead of clearing it.
   */
  lemma UpdateKeepsUnwrittenFields(t: Todo, input: UpdateInput, readDate: DateReader, now: int)
    requires Validate(Prepared(input), readDate).Passed?
    ensures var r := Merged(t, Validate(Prepared(input), readDate).data, now);
            && r.targetTime == t.targetTime
            && (input.description.Null? ==> r.description == t.description)
            && (input.dueDate.Null? ==> r.dueDate == t.dueDate)
            && (input.title.Absent? ==> r.title == t.title)
  {
  }

  /** `GetTodoAction::handle`: the todo it was given, every field included. */
  function GetTodo(t: Todo): (r: Todo)
    ensures r == t
  {
    t
  }

  /** The rows with ids `lo` up to `hi - 1`, in id order. */
  function RowsBetween(m: map<int, Todo>, lo: int, hi: int): (r: seq<Todo>)
    requires forall k :: k in m ==> m[k].id == k
    ensures forall t :: t in r <==> lo <= t.id < hi && t.id in m && m[t.id] == t
    ensures forall i, j :: 0 <= i < j < |r| ==> r[i].id < r[j].id
    decreases hi - lo
  {
    if lo >= hi then []
    else
      var rest := RowsBetween(m, lo + 1, hi);
      if lo in m then [m[lo]] + rest else rest
  }

  /** The todos table, keyed by id, with the next id the auto-increment will hand out. */
  class TodoStore {
    var todos: map<int, Todo>
    var nextId: int

    /** Every row sits under its own id, and ids start at 1 and lie below `nextId`. */
    ghost predicate Valid()
      reads this
    {
      1 <= nextId && forall k :: k in todos ==> todos[k].id == k && 1 <= k < nextId
    }

    constructor ()
      ensures Valid() && todos == map[] && nextId == 1
    {
      todos := map[];
      nextId := 1;
    }

    /** The table's rows in id order, the order a query without `orderBy` reads them in. */
    function Rows(): (r: seq<Todo>)
      reads this
      requires Valid()
      ensures forall t :: t in r <==> t.id in todos && todos[t.id] == t
      ensures |r| == |todos|
      ensures forall i, j :: 0 <= i < j < |r| ==> r[i].id < r[j].id
    {
      var r := RowsBetween(todos, 1, nextId);
      DistinctIdsCount(r, todos);
      r
    }

    /**
     * `CreateTodoAction::handle`: insert `NewRecord` under a fresh id; no
     * existing row changes.
     */
    method CreateTodo(user: User, data: CreateData, now: int) returns (t: Todo)
      requires Valid()
      modifies this
      ensures Valid()
      ensures t == NewRecord(old(nextId), user, data, now)
      ensures t.id !in old(todos)
      ensures todos == old(todos)[t.id := t]
      ensures |todos| == |old(todos)| + 1
      ensures nextId == old(nextId) + 1
    {
      t := NewRecord(nextId, user, data, now);
      todos := todos[nextId := t];
      nextId := nextId + 1;
    }

    /**
     * `UpdateTodoAction::handle`: write the merged row back under its id and
     * return it as `fresh()` re-reads it; no other row changes.
     */
    method UpdateTodo(todo: Todo, data: UpdateData, now: int) returns (t: Todo)
      requires Valid()
      requires todo.id in todos && todos[todo.id] == todo
      modifies this
      ensures Valid()
      ensures t == Merged(todo, data, now)
      ensures todos == old(todos)[todo.id := t]
      ensures t.id == todo.id && t.userId == todo.userId && t.targetTime == todo.targetTime
      ensures nextId == old(nextId)
    {
      t := Merged(todo, data, now);
      todos := todos[todo.id := t];
    }

    /**
     * `DeleteTodoAction::handle`: remove the row of a todo that route
     * binding loaded; `delete()` on a loaded model answers true.
     */
    method DeleteTodo(todo: Todo) returns (ok: bool)
      requires Valid()
      requires todo.id in todos
      modifies this
      ensures Valid()
      ensures ok
      ensures todo.id !in todos && todos == old(todos) - {todo.id}
      ensures |todos| == |old(todos)| - 1
      ensures nextId == old(nextId)
    {
      todos := todos - {todo.id};
      ok := true;
    }
  }

  /** A sequence of rows with increasing ids that are exactly a map's rows has the map's size. */
  lemma DistinctIdsCount(r: seq<Todo>, m: map<int, Todo>)
    requires forall k :: k in m ==> m[k].id == k
    requires forall t :: t in r <==> t.id in m && m[t.id] == t
    requires forall i, j :: 0 <= i < j < |r| ==> r[i].id < r[j].id
    ensures |r| == |m|
  {
    var ids := set t | t in r :: t.id;
    assert ids == m.Keys by {
      forall k | k in m ensures k in ids { assert m[k] in r; }
    }
    IdsOfIncreasing(r);
  }

  lemma {:induction false} IdsOfIncreasing(r: seq<Todo>)
    requires forall i, j :: 0 <= i < j < |r| ==> r[i].id < r[j].id
    ensures |set t | t in r :: t.id| == |r|
  {
    if r != [] {
      var rest := r[1..];
      IdsOfIncreasing(rest);
      var s := set t | t in rest :: t.id;
      assert (set t | t in r :: t.id) == {r[0].id} + s by {
        assert r == [r[0]] + rest;
      }
      assert r[0].id !in s;
    }
  }
}
