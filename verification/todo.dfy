/**
 * The `Todo` Eloquent model (backend/app/Models/Todo.php): its attributes
 * after casting, its JSON form, and its query scopes as functions over a
 * sequence of records.
 */
module Models {
  import opened Wrappers
  import opened Enums
  import opened Json
  import Text

  /** A calendar date, as a number of days; `due_date` holds one. */
  type Day = nat

  /** A time of day; `target_time` holds one (cast `datetime:H:i`). */
  datatype Time = Time(hour: nat, minute: nat)

  predicate ValidTime(t: Time) {
    t.hour < 24 && t.minute < 60
  }

  /** The authenticated user; only the id takes part in this model. */
  datatype User = User(id: int)

  /**
   * One row of the todos table with its casts applied: `is_completed` is a
   * bool and `priority` a `TaskPriority` case. `created_at` and
   * `updated_at` are ticks of the store's clock.
   */
  datatype Todo = Todo(
    id: int,
    userId: int,
    title: string,
    description: Option<string>,
    isCompleted: bool,
    dueDate: Option<Day>,
    targetTime: Option<Time>,
    priority: TaskPriority,
    createdAt: int,
    updatedAt: int)

  // ---------------------------------------------------------------------
  // The `H:i` time format
  // ---------------------------------------------------------------------

  function TwoDigits(n: nat): (s: string)
    requires n < 100
    ensures |s| == 2 && Text.IsDigit(s[0]) && Text.IsDigit(s[1])
    ensures Text.DigitValue(s[0]) * 10 + Text.DigitValue(s[1]) == n
  {
    [Text.DigitChar(n / 10), Text.DigitChar(n % 10)]
  }

  /** `H:i`: a zero-padded 24-hour clock, as in "14:30". */
  function FormatTime(t: Time): (s: string)
    requires ValidTime(t)
    ensures |s| == 5 && s[2] == ':'
  {
    TwoDigits(t.hour) + ":" + TwoDigits(t.minute)
  }

  /**
   * The `date_format:H:i` rule: exactly two hour digits 00-23, a colon and
   * two minute digits 00-59; the time read, or None.
   */
  function ParseTime(s: string): (r: Option<Time>)
    ensures r.Some? ==> ValidTime(r.value)
  {
    if |s| == 5 && s[2] == ':'
       && Text.IsDigit(s[0]) && Text.IsDigit(s[1]) && Text.IsDigit(s[3]) && Text.IsDigit(s[4])
    then
      var h := Text.DigitValue(s[0]) * 10 + Text.DigitValue(s[1]);
      var m := Text.DigitValue(s[3]) * 10 + Text.DigitValue(s[4]);
      if h < 24 && m < 60 then Some(Time(h, m)) else None
    else None
  }

  /** Formatting then parsing gives back the time. */
  lemma ParseFormatTime(t: Time)
    requires ValidTime(t)
    ensures ParseTime(FormatTime(t)) == Some(t)
  {
    var s := FormatTime(t);
    assert s[0..2] == TwoDigits(t.hour) && s[3..5] == TwoDigits(t.minute);
  }

  /** A string the rule accepts is exactly the formatting of the time it denotes. */
  lemma FormatParseTime(s: string)
    requires ParseTime(s).Some?
    ensures FormatTime(ParseTime(s).value) == s
  {
    var t := ParseTime(s).value;
    var f := FormatTime(t);
    assert f[0..2] == TwoDigits(t.hour) && f[3..5] == TwoDigits(t.minute);
    assert forall i :: 0 <= i < 5 ==> f[i] == s[i] by {
      DigitsDetermined(s[0], s[1], f[0], f[1]);
      DigitsDetermined(s[3], s[4], f[3], f[4]);
    }
  }

  lemma DigitsDetermined(a: char, b: char, c: char, d: char)
    requires Text.IsDigit(a) && Text.IsDigit(b) && Text.IsDigit(c) && Text.IsDigit(d)
    requires Text.DigitValue(a) * 10 + Text.DigitValue(b) == Text.DigitValue(c) * 10 + Text.DigitValue(d)
    ensures a == c && b == d
  {
  }

  // ---------------------------------------------------------------------
  // Serialisation
  // ---------------------------------------------------------------------

  /** The keys of a serialised todo. */
  const TodoKeys: set<string> :=
    {"id", "user_id", "title", "description", "is_completed", "due_date",
     "target_time", "priority", "created_at", "updated_at"}

  /** An optional string as JSON: the string, or null. */
  function OptStr(o: Option<string>): Json {
    match o
    case Some(s) => Str(s)
    case None => Null
  }

  /**
   * `toArray()`: every attribute under its column name; the priority as its
   * backing value, the target time in `H:i`, the due date as its day number.
   */
  function ToJson(t: Todo): (j: Json)
    ensures j.Obj? && j.fields.Keys == TodoKeys
    ensures j.fields["id"] == Int(t.id) && j.fields["user_id"] == Int(t.userId)
    ensures j.fields["title"] == Str(t.title)
    ensures j.fields["description"] == (if t.description.Some? then Str(t.description.value) else Null)
    ensures j.fields["is_completed"] == Bool(t.isCompleted)
    ensures j.fields["priority"] == Int(Value(t.priority))
    ensures j.fields["due_date"] == (if t.dueDate.Some? then Int(t.dueDate.value) else Null)
    ensures j.fields["target_time"] ==
              (if t.targetTime.Some? && ValidTime(t.targetTime.value) then Str(FormatTime(t.targetTime.value)) else Null)
    ensures j.fields["created_at"] == Int(t.createdAt) && j.fields["updated_at"] == Int(t.updatedAt)
  {
    Obj(map[
      "id" := Int(t.id),
      "user_id" := Int(t.userId),
      "title" := Str(t.title),
      "description" := OptStr(t.description),
      "is_completed" := Bool(t.isCompleted),
      "due_date" := (match t.dueDate case Some(d) => Int(d) case None => Null),
      "target_time" := (match t.targetTime
                        case Some(tm) => if ValidTime(tm) then Str(FormatTime(tm)) else Null
                        case None => Null),
      "priority" := Int(Value(t.priority)),
      "created_at" := Int(t.createdAt),
      "updated_at" := Int(t.updatedAt)])
  }

  // ---------------------------------------------------------------------
  // Query scopes: `where` and `orderBy` over a sequence of rows
  // ---------------------------------------------------------------------

  /**
   * `where`: the rows that satisfy `p`, in their original order; a row is
   * kept as many times as it occurs.
   */
  function Where(s: seq<Todo>, p: Todo -> bool): (r: seq<Todo>)
    ensures forall t :: multiset(r)[t] == if p(t) then multiset(s)[t] else 0
    ensures forall t :: t in r <==> t in s && p(t)
    ensures |r| <= |s|
  {
    if s == [] then []
    else
      assert s == [s[0]] + s[1..];
      (if p(s[0]) then [s[0]] else []) + Where(s[1..], p)
  }

  /** `scopeWithPriority`: the rows whose priority is `priority`. */
  function WithPriority(s: seq<Todo>, priority: TaskPriority): (r: seq<Todo>)
    ensures forall t :: t in r <==> t in s && t.priority == priority
  {
    Where(s, (t: Todo) => t.priority == priority)
  }

  /** `scopeCompleted`: the rows with `is_completed = true`. */
  function Completed(s: seq<Todo>): (r: seq<Todo>)
    ensures forall t :: t in r <==> t in s && t.isCompleted
  {
    Where(s, (t: Todo) => t.isCompleted)
  }

  /** `scopeUncompleted`: the rows with `is_completed = false`. */
  function Uncompleted(s: seq<Todo>): (r: seq<Todo>)
    ensures forall t :: t in r <==> t in s && !t.isCompleted
  {
    Where(s, (t: Todo) => !t.isCompleted)
  }

  /** Completed and uncompleted rows share nothing and together are all rows, counted with multiplicity. */
  lemma CompletedPartition(s: seq<Todo>)
    ensures multiset(Completed(s)) + multiset(Uncompleted(s)) == multiset(s)
    ensures forall t :: !(t in Completed(s) && t in Uncompleted(s))
    ensures |Completed(s)| + |Uncompleted(s)| == |s|
  {
  }

  /** The columns a list may be sorted by. */
  datatype Column = Id | UserId | DueDate | TargetTime | IsCompleted | Priority | CreatedAt | UpdatedAt

  /**
   * The value `orderBy` compares for a column. A null date or time sorts
   * below every value (first ascending, last descending); booleans sort
   * false before true.
   */
  function SortKey(t: Todo, c: Column): int {
    match c
    case Id => t.id
    case UserId => t.userId
    case DueDate => (match t.dueDate case Some(d) => d case None => -1)
    case TargetTime => (match t.targetTime case Some(tm) => tm.hour * 60 + tm.minute case None => -1)
    case IsCompleted => if t.isCompleted then 1 else 0
    case Priority => Value(t.priority)
    case CreatedAt => t.createdAt
    case UpdatedAt => t.updatedAt
  }

  /** `a` may come before `b` in an `orderBy(c, desc ? 'desc' : 'asc')`. */
  predicate Precedes(a: Todo, b: Todo, c: Column, desc: bool) {
    if desc then SortKey(a, c) >= SortKey(b, c) else SortKey(a, c) <= SortKey(b, c)
  }

  predicate Ordered(s: seq<Todo>, c: Column, desc: bool) {
    forall i, j :: 0 <= i < j < |s| ==> Precedes(s[i], s[j], c, desc)
  }

  /** Places `t` before the first row it may precede. */
  function Insert(t: Todo, s: seq<Todo>, c: Column, desc: bool): (r: seq<Todo>)
    requires Ordered(s, c, desc)
    ensures Ordered(r, c, desc)
    ensures multiset(r) == multiset(s) + multiset{t}
  {
    if s == [] then [t]
    else if Precedes(t, s[0], c, desc) then
      ConsOrdered(t, s, c, desc);
      [t] + s
    else
      assert s == [s[0]] + s[1..];
      var rest := Insert(t, s[1..], c, desc);
      HeadPrecedesInserted(t, s, rest, c, desc);
      ConsOrdered(s[0], rest, c, desc);
      [s[0]] + rest
  }

  /** A row that may precede every row of an ordered sequence may head it. */
  lemma ConsOrdered(h: Todo, s: seq<Todo>, c: Column, desc: bool)
    requires Ordered(s, c, desc)
    requires forall x :: x in s ==> Precedes(h, x, c, desc)
    ensures Ordered([h] + s, c, desc)
  {
    var r := [h] + s;
    forall i, j | 0 <= i < j < |r| ensures Precedes(r[i], r[j], c, desc) {
      if i == 0 {
        assert r[j] == s[j - 1];
      } else {
        assert r[i] == s[i - 1] && r[j] == s[j - 1];
      }
    }
  }

  /** When `t` does not go before the head, the head goes before `t` and before the rest. */
  lemma HeadPrecedesInserted(t: Todo, s: seq<Todo>, rest: seq<Todo>, c: Column, desc: bool)
    requires s != [] && Ordered(s, c, desc) && !Precedes(t, s[0], c, desc)
    requires multiset(rest) == multiset(s[1..]) + multiset{t}
    ensures forall x :: x in rest ==> Precedes(s[0], x, c, desc)
  {
    forall x | x in rest ensures Precedes(s[0], x, c, desc) {
      assert x in multiset(rest);
      if x != t {
        assert x in multiset(s[1..]);
        var k :| 0 <= k < |s[1..]| && s[1..][k] == x;
        assert s[k + 1] == x;
      }
    }
  }

  /**
   * `orderBy(c, direction)`: the rows rearranged into the column's order.
   * The database leaves the order of equal keys open; this one keeps the
   * rows' original order among them.
   */
  function OrderBy(s: seq<Todo>, c: Column, desc: bool): (r: seq<Todo>)
    ensures Ordered(r, c, desc)
    ensures multiset(r) == multiset(s)
    ensures |r| == |s|
  {
    if s == [] then []
    else
      assert s == [s[0]] + s[1..];
      Insert(s[0], OrderBy(s[1..], c, desc), c, desc)
  }

  /**
   * `scopeOrderByPriority`: highest first by default; with `descending`
   * false, lowest first.
   */
  function OrderByPriority(s: seq<Todo>, descending: bool := true): (r: seq<Todo>)
    ensures multiset(r) == multiset(s)
    ensures descending ==> forall i, j :: 0 <= i < j < |r| ==> Value(r[i].priority) >= Value(r[j].priority)
    ensures !descending ==> forall i, j :: 0 <= i < j < |r| ==> Value(r[i].priority) <= Value(r[j].priority)
  {
    OrderBy(s, Priority, descending)
  }

  /** By default no row comes before one of strictly higher priority. */
  lemma NoneBeforeHigher(s: seq<Todo>, i: int, j: int)
    requires 0 <= i < j < |OrderByPriority(s)|
    ensures SortOrder(OrderByPriority(s)[i].priority) >= SortOrder(OrderByPriority(s)[j].priority)
  {
  }
}
