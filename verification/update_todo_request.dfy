/**
 * The form requests of the todo routes
 * (backend/app/Http/Requests/UpdateTodoRequest.php and DeleteTodoRequest.php):
 * who may send them, and which update bodies pass validation.
 */
module Requests {
  import opened Wrappers
  import opened Enums
  import opened Models
  import Policies
  import Text

  /** A scalar of the request body: a JSON string, integer or boolean. */
  datatype Raw = RStr(s: string) | RInt(i: int) | RBool(b: bool)

  /** One key of the request body: missing, explicitly null, or holding a value. */
  datatype Field = Absent | Null | Given(v: Raw)

  /** The keys of an update body that have validation rules. */
  datatype UpdateInput = UpdateInput(
    title: Field,
    description: Field,
    dueDate: Field,
    targetTime: Field,
    isCompleted: Field,
    priority: Field)

  /**
   * The framework's reading of a date (`strtotime`, the `date` rule and the
   * `datetime` cast): the day a value denotes, or None when it is not a date.
   */
  type DateReader = Raw -> Option<Day>

  /** The longest title the `max:255` rule lets through. */
  const MaxTitleLength := 255

  // ---------------------------------------------------------------------
  // prepareForValidation
  // ---------------------------------------------------------------------

  /**
   * `$request->boolean(key)`: true for `true`, the integer 1 and the strings
   * "1", "true", "on" and "yes" in any letter case; false for everything
   * else, null included.
   */
  function AsBoolean(f: Field): (b: bool)
    ensures f.Absent? || f.Null? ==> !b
    ensures f == Given(RBool(true)) || f == Given(RInt(1)) || f == Given(RStr("1")) ==> b
    ensures f.Given? && f.v.RBool? ==> b == f.v.b
    ensures f.Given? && f.v.RInt? ==> (b <==> f.v.i == 1)
    ensures f.Given? && f.v.RStr? ==> (b <==> Text.ToLower(f.v.s) in ["1", "true", "on", "yes"])
  {
    match f
    case Given(RBool(x)) => x
    case Given(RInt(i)) => i == 1
    case Given(RStr(s)) =>
      assert s == "1" ==> Text.ToLower(s) == "1";
      Text.ToLower(s) in ["1", "true", "on", "yes"]
    case _ => false
  }

  /**
   * The body after `prepareForValidation`: a present `is_completed`, null
   * or not, is replaced by its boolean reading; nothing else changes.
   */
  function Prepared(input: UpdateInput): (r: UpdateInput)
    ensures r.isCompleted.Absent? <==> input.isCompleted.Absent?
    ensures !input.isCompleted.Absent? ==> r.isCompleted == Given(RBool(AsBoolean(input.isCompleted)))
    ensures r.(isCompleted := input.isCompleted) == input
  {
    if input.isCompleted.Absent? then input
    else input.(isCompleted := Given(RBool(AsBoolean(input.isCompleted))))
  }

  // ---------------------------------------------------------------------
  // rules()
  // ---------------------------------------------------------------------

  /**
   * A string that is empty once trimmed. The validator runs no rule on it
   * except the implicit ones (`required`), so `nullable` keys let it through.
   */
  predicate Blank(f: Field) {
    f.Given? && f.v.RStr? && Text.IsBlank(f.v.s)
  }

  /** `sometimes|required|string|max:255`: a missing title passes, a present one must be a non-blank string. */
  function TitleOk(f: Field): (ok: bool)
    ensures f.Absent? ==> ok
    ensures f.Null? || Blank(f) ==> !ok
    ensures ok && f.Given? ==> f.v.RStr? && 0 < |f.v.s| <= MaxTitleLength
    ensures f.Given? && f.v.RStr? && !Text.IsBlank(f.v.s) && |f.v.s| <= MaxTitleLength ==> ok
  {
    match f
    case Absent => true
    case Given(RStr(s)) => !Text.IsBlank(s) && |s| <= MaxTitleLength
    case _ => false
  }

  /** `nullable|string`: missing, null or any string. */
  function DescriptionOk(f: Field): (ok: bool)
    ensures ok <==> !f.Given? || f.v.RStr?
  {
    match f
    case Given(v) => v.RStr?
    case _ => true
  }

  /** `nullable|date`: missing, null, blank, or a value the date reader understands. */
  function DueDateOk(f: Field, readDate: DateReader): (ok: bool)
    ensures !f.Given? || Blank(f) ==> ok
    ensures ok && f.Given? && !Blank(f) ==> readDate(f.v).Some?
    ensures f.Given? && readDate(f.v).Some? ==> ok
  {
    match f
    case Given(v) => Blank(f) || readDate(v).Some?
    case _ => true
  }

  /** `nullable|date_format:H:i`: missing, null, blank, or a well-formed `HH:MM`. */
  function TargetTimeOk(f: Field): (ok: bool)
    ensures !f.Given? || Blank(f) ==> ok
    ensures ok && f.Given? && !Blank(f) ==> f.v.RStr? && ParseTime(f.v.s).Some?
    ensures f.Given? && !f.v.RStr? ==> !ok
  {
    match f
    case Given(RStr(s)) => Text.IsBlank(s) || ParseTime(s).Some?
    case Given(_) => false
    case _ => true
  }

  /** `nullable|boolean`: true, false, 0, 1, "0" and "1" (and a blank string, which no rule sees). */
  function IsCompletedOk(f: Field): (ok: bool)
    ensures !f.Given? || f.v.RBool? || Blank(f) ==> ok
    ensures f.Given? && f.v.RInt? ==> (ok <==> f.v.i == 0 || f.v.i == 1)
    ensures ok && f.Given? && f.v.RStr? && !Blank(f) ==> f.v.s == "0" || f.v.s == "1"
    ensures f == Given(RStr("0")) || f == Given(RStr("1")) ==> ok
  {
    match f
    case Given(RBool(_)) => true
    case Given(RInt(i)) => i == 0 || i == 1
    case Given(RStr(s)) => Text.IsBlank(s) || s == "0" || s == "1"
    case _ => true
  }

  /** The decimal digit string of a priority's backing value. */
  function PriorityDigit(s: string): (r: Option<TaskPriority>)
    ensures r.Some? <==> exists p: TaskPriority :: s == [Text.DigitChar(Value(p))]
    ensures r.Some? ==> s == [Text.DigitChar(Value(r.value))]
  {
    assert Text.DigitChar(Value(Low)) == '0' && Text.DigitChar(Value(Medium)) == '1' && Text.DigitChar(Value(High)) == '2';
    if s == "0" then Some(Low) else if s == "1" then Some(Medium) else if s == "2" then Some(High) else None
  }

  /**
   * `nullable` plus `new Enum(TaskPriority::class)`: a backing value of a
   * case, as an integer or its digit string (and a blank string, which no
   * rule sees).
   */
  function PriorityOk(f: Field): (ok: bool)
    ensures !f.Given? || Blank(f) ==> ok
    ensures f.Given? && f.v.RInt? ==> (ok <==> 0 <= f.v.i <= 2)
    ensures f.Given? && f.v.RBool? ==> !ok
    ensures ok && f.Given? && f.v.RStr? && !Blank(f) ==> PriorityDigit(f.v.s).Some?
    ensures f.Given? && f.v.RStr? && PriorityDigit(f.v.s).Some? ==> ok
  {
    match f
    case Given(RInt(i)) => TryFrom(i).Some?
    case Given(RStr(s)) => Text.IsBlank(s) || PriorityDigit(s).Some?
    case Given(RBool(_)) => false
    case _ => true
  }

  function Flag(ok: bool, key: string): set<string> {
    if ok then {} else {key}
  }

  /** The keys whose rule the body breaks; the 422 response lists them. */
  function Failures(input: UpdateInput, readDate: DateReader): (e: set<string>)
    ensures "title" in e <==> !TitleOk(input.title)
    ensures "description" in e <==> !DescriptionOk(input.description)
    ensures "due_date" in e <==> !DueDateOk(input.dueDate, readDate)
    ensures "target_time" in e <==> !TargetTimeOk(input.targetTime)
    ensures "is_completed" in e <==> !IsCompletedOk(input.isCompleted)
    ensures "priority" in e <==> !PriorityOk(input.priority)
    ensures e <= {"title", "description", "due_date", "target_time", "is_completed", "priority"}
  {
    Flag(TitleOk(input.title), "title")
    + Flag(DescriptionOk(input.description), "description")
    + Flag(DueDateOk(input.dueDate, readDate), "due_date")
    + Flag(TargetTimeOk(input.targetTime), "target_time")
    + Flag(IsCompletedOk(input.isCompleted), "is_completed")
    + Flag(PriorityOk(input.priority), "priority")
  }

  // ---------------------------------------------------------------------
  // validated()
  // ---------------------------------------------------------------------

  /**
   * The validated body with the model's casts applied. None stands for a
   * key that is missing or null: the update's `??` treats both alike.
   */
  datatype UpdateData = UpdateData(
    title: Option<string>,
    description: Option<string>,
    dueDate: Option<Day>,
    targetTime: Option<Time>,
    isCompleted: Option<bool>,
    priority: Option<TaskPriority>)

  /** An update body without any key. */
  const EmptyUpdate := UpdateData(None, None, None, None, None, None)

  function StringOf(f: Field): Option<string> {
    match f
    case Given(RStr(s)) => Some(s)
    case _ => None
  }

  function DateOf(f: Field, readDate: DateReader): Option<Day> {
    match f
    case Given(v) => if Blank(f) then None else readDate(v)
    case _ => None
  }

  function TimeOf(f: Field): Option<Time> {
    match f
    case Given(RStr(s)) => ParseTime(s)
    case _ => None
  }

  /** The `boolean` cast of a value the rule accepted. */
  function BoolOf(f: Field): Option<bool> {
    match f
    case Given(RBool(b)) => Some(b)
    case Given(RInt(i)) => Some(i == 1)
    case Given(RStr(s)) => if Text.IsBlank(s) then None else Some(s == "1")
    case _ => None
  }

  /** The enum cast of a value the rule accepted. */
  function PriorityOf(f: Field): Option<TaskPriority> {
    match f
    case Given(RInt(i)) => TryFrom(i)
    case Given(RStr(s)) => PriorityDigit(s)
    case _ => None
  }

  datatype Validation = Passed(data: UpdateData) | Failed(errors: set<string>)

  /**
   * The validator run over a (prepared) body: the broken keys, or the
   * validated data, in which a key carries a value exactly when the body
   * gave it a non-null, non-blank one (a blank description is kept: it is
   * still a string).
   */
  function Validate(input: UpdateInput, readDate: DateReader): (v: Validation)
    ensures v.Passed? <==> Failures(input, readDate) == {}
    ensures v.Failed? ==> v.errors == Failures(input, readDate)
    ensures v.Passed? ==> (v.data.title.Some? <==> input.title.Given?)
    ensures v.Passed? ==> (v.data.description.Some? <==> input.description.Given?)
    ensures v.Passed? ==> (v.data.dueDate.Some? <==> input.dueDate.Given? && !Blank(input.dueDate))
    ensures v.Passed? ==> (v.data.targetTime.Some? <==> input.targetTime.Given? && !Blank(input.targetTime))
    ensures v.Passed? ==> (v.data.isCompleted.Some? <==> input.isCompleted.Given? && !Blank(input.isCompleted))
    ensures v.Passed? ==> (v.data.priority.Some? <==> input.priority.Given? && !Blank(input.priority))
    ensures v.Passed? && v.data.title.Some? ==> input.title == Given(RStr(v.data.title.value))
    ensures v.Passed? && v.data.description.Some? ==> input.description == Given(RStr(v.data.description.value))
    ensures v.Passed? && v.data.dueDate.Some? ==> v.data.dueDate == readDate(input.dueDate.v)
    ensures v.Passed? && v.data.targetTime.Some? ==>
              ValidTime(v.data.targetTime.value) && input.targetTime == Given(RStr(FormatTime(v.data.targetTime.value)))
    ensures v.Passed? && v.data.isCompleted.Some? ==> v.data.isCompleted.value == AsBoolean(input.isCompleted)
    ensures v.Passed? && v.data.priority.Some? ==>
              || input.priority == Given(RInt(Value(v.data.priority.value)))
              || input.priority == Given(RStr([Text.DigitChar(Value(v.data.priority.value))]))
  {
    var failures := Failures(input, readDate);
    if failures != {} then Failed(failures)
    else
      var data := UpdateData(
        StringOf(input.title),
        StringOf(input.description),
        DateOf(input.dueDate, readDate),
        TimeOf(input.targetTime),
        BoolOf(input.isCompleted),
        PriorityOf(input.priority));
      assert data.targetTime.Some? ==> input.targetTime == Given(RStr(FormatTime(data.targetTime.value))) by {
        if data.targetTime.Some? {
          FormatParseTime(input.targetTime.v.s);
        }
      }
      assert Text.ToLower("0") == "0" && Text.ToLower("1") == "1";
      assert data.priority.Some? && input.priority.v.RStr? ==> !Text.IsTrimmed(input.priority.v.s[0]);
      Passed(data)
  }

  /** After preparation `is_completed` never breaks its rule. */
  lemma PreparedIsCompletedPasses(input: UpdateInput)
    ensures IsCompletedOk(Prepared(input).isCompleted)
    ensures "is_completed" !in Failures(Prepared(input), (v: Raw) => None)
  {
  }

  /**
   * After preparation an explicit null `is_completed` is a false one, so it
   * validates and reaches the update as false.
   */
  lemma NullIsCompletedBecomesFalse(input: UpdateInput, readDate: DateReader)
    requires input.isCompleted.Null?
    requires Validate(Prepared(input), readDate).Passed?
    ensures Validate(Prepared(input), readDate).data.isCompleted == Some(false)
  {
  }

  /** A well-formed `HH:MM` target time passes its rule and is carried into the validated data. */
  lemma TargetTimeAccepted(input: UpdateInput, readDate: DateReader, t: Time)
    requires ValidTime(t)
    requires input == EmptyInput.(targetTime := Given(RStr(FormatTime(t))))
    ensures Validate(input, readDate) == Passed(EmptyUpdate.(targetTime := Some(t)))
  {
    ParseFormatTime(t);
  }

  /** An update body without any key. */
  const EmptyInput := UpdateInput(Absent, Absent, Absent, Absent, Absent, Absent)

  /** Only 0, 1 and 2 pass as a priority. */
  lemma PriorityRange(i: int)
    ensures PriorityOk(Given(RInt(i))) <==> 0 <= i <= 2
  {
  }

  /**
   * A blank due date, target time or priority reaches no rule, so the body
   * validates and carries no value for those keys.
   */
  lemma BlankValuesPass(input: UpdateInput, readDate: DateReader, s: string)
    requires Text.IsBlank(s)
    requires input == EmptyInput.(dueDate := Given(RStr(s)), targetTime := Given(RStr(s)), priority := Given(RStr(s)))
    ensures Validate(input, readDate) == Passed(EmptyUpdate)
  {
  }

  /** Null is allowed for description and due date, and forbidden for title. */
  lemma NullableKeys(input: UpdateInput, readDate: DateReader)
    requires input.title.Null?
    ensures "title" in Failures(input, readDate)
    ensures input.description.Null? ==> "description" !in Failures(input, readDate)
    ensures input.dueDate.Null? ==> "due_date" !in Failures(input, readDate)
  {
  }

  // ---------------------------------------------------------------------
  // The request objects
  // ---------------------------------------------------------------------

  /** `UpdateTodoRequest`: the acting user, the route's todo and the body. */
  class UpdateTodoRequest {
    const user: User
    const todo: Todo
    var input: UpdateInput

    constructor (user: User, todo: Todo, input: UpdateInput)
      ensures this.user == user && this.todo == todo && this.input == input
    {
      this.user := user;
      this.todo := todo;
      this.input := input;
    }

    /** `authorize()`: the policy's update ability, i.e. ownership. */
    function Authorize(): (ok: bool)
      ensures ok <==> user.id == todo.userId
    {
      Policies.Update(user, todo)
    }

    /** `prepareForValidation()`: coerce a present `is_completed` to a boolean, in place. */
    method PrepareForValidation()
      modifies this
      ensures input == Prepared(old(input))
    {
      if !input.isCompleted.Absent? {
        input := input.(isCompleted := Given(RBool(AsBoolean(input.isCompleted))));
      }
    }

    /** The validator over the current body. */
    function Validated(readDate: DateReader): (v: Validation)
      reads this
      ensures v == Validate(input, readDate)
    {
      Validate(input, readDate)
    }
  }

  /**
   * `DeleteTodoRequest::authorize()`: the policy's delete ability. The
   * request declares no rules, so nothing else is checked.
   */
  function DeleteAuthorize(user: User, todo: Todo): (ok: bool)
    ensures ok <==> user.id == todo.userId
  {
    Policies.Delete(user, todo)
  }
}
