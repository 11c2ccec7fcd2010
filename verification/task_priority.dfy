/** The `TaskPriority` backed enum (backend/app/Enums/TaskPriority.php). */
module Enums {
  import opened Wrappers
  import Text

  /** The three cases, in declaration order HIGH, MEDIUM, LOW. */
  datatype TaskPriority = High | Medium | Low

  /** `cases()`: every case, in declaration order. */
  const Cases: seq<TaskPriority> := [High, Medium, Low]

  /** The integer backing value of a case. */
  function Value(p: TaskPriority): (v: int)
    ensures 0 <= v <= 2
    ensures p == High <==> v == 2
    ensures p == Low <==> v == 0
  {
    match p
    case High => 2
    case Medium => 1
    case Low => 0
  }

  /** `TaskPriority::tryFrom($v)`: the case backed by `v`, or null. */
  function TryFrom(v: int): (r: Option<TaskPriority>)
    ensures r.Some? <==> 0 <= v <= 2
    ensures r.Some? ==> Value(r.value) == v
  {
    if v == 2 then Some(High)
    else if v == 1 then Some(Medium)
    else if v == 0 then Some(Low)
    else None
  }

  /** `values()`: the backing values of `cases()`, position by position. */
  function Values(): (vs: seq<int>)
    ensures |vs| == |Cases|
    ensures forall i :: 0 <= i < |vs| ==> TryFrom(vs[i]) == Some(Cases[i])
  {
    seq(|Cases|, i requires 0 <= i < |Cases| => Value(Cases[i]))
  }

  /** Tailwind classes for a case's badge. */
  function Color(p: TaskPriority): (c: string)
    ensures |c| > 3 && c[..3] == "bg-"
  {
    match p
    case High => "bg-red-100 text-red-800"
    case Medium => "bg-yellow-100 text-yellow-800"
    case Low => "bg-green-100 text-green-800"
  }

  /** The lower-case name of a case. */
  function Name(p: TaskPriority): (n: string)
    ensures |n| > 0
  {
    match p
    case High => "high"
    case Medium => "medium"
    case Low => "low"
  }

  /** The badge text of a case: its name, capitalised, followed by "Priority". */
  function Label(p: TaskPriority): (l: string)
    ensures Text.ToLower(l) == Name(p) + " priority"
  {
    match p
    case High => "High Priority"
    case Medium => "Medium Priority"
    case Low => "Low Priority"
  }

  /** Rank used for sorting; a higher number is a higher priority. */
  function SortOrder(p: TaskPriority): (n: int)
    ensures n == Value(p)
  {
    match p
    case High => 2
    case Medium => 1
    case Low => 0
  }

  /** A case survives the trip to its backing value and back, and only the three values come back. */
  lemma ValueRoundTrip(p: TaskPriority, v: int)
    ensures TryFrom(Value(p)) == Some(p)
    ensures TryFrom(v).Some? ==> Value(TryFrom(v).value) == v
  {
  }

  lemma ValuesInDeclarationOrder()
    ensures Values() == [2, 1, 0]
  {
  }

  /** Every backing value is in `values()`, so a stored priority is always one of them. */
  lemma ValueListed(p: TaskPriority)
    ensures Value(p) in Values()
  {
    ValuesInDeclarationOrder();
  }

  lemma SortOrderRanks()
    ensures SortOrder(High) > SortOrder(Medium) > SortOrder(Low)
  {
  }

  /** `name()`, `label()` and `color()` tell the cases apart. */
  lemma DescriptionsInjective(p: TaskPriority, q: TaskPriority)
    ensures Name(p) == Name(q) ==> p == q
    ensures Label(p) == Label(q) ==> p == q
    ensures Color(p) == Color(q) ==> p == q
  {
  }
}
