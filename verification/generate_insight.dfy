/**
 * `GenerateInsightAction::execute` and the fallback of
 * `OpenRouterService::chat`: pick the user's todos due today and those due
 * before today, put them into a fixed prompt and return the model's reply.
 * The JSON pretty-printer and the chat completion call are parameters.
 */
module AiActions {
  import opened Wrappers
  import opened Models

  /** `json_encode($todos, JSON_PRETTY_PRINT)`. */
  type Encoder = seq<Todo> -> string

  /** The chat completion call: the first choice's message content, or None when the reply has none. */
  type Completion = string -> Option<string>

  /** What `chat` returns when the reply carries no content. */
  const NoResponse := "No response."

  /** `Todo::where('user_id', $userId)->where('due_date', today())->get()`. */
  function TodayTasks(rows: seq<Todo>, userId: int, today: Day): (r: seq<Todo>)
    ensures forall t :: t in r <==> t in rows && t.userId == userId && t.dueDate == Some(today)
  {
    Where(rows, (t: Todo) => t.userId == userId && t.dueDate == Some(today))
  }

  /** `Todo::where('user_id', $userId)->where('due_date', '<', today())->get()`; a null date never compares. */
  function History(rows: seq<Todo>, userId: int, today: Day): (r: seq<Todo>)
    ensures forall t :: t in r <==> t in rows && t.userId == userId && t.dueDate.Some? && t.dueDate.value < today
  {
    Where(rows, (t: Todo) => t.userId == userId && t.dueDate.Some? && t.dueDate.value < today)
  }

  /** The heredoc's text before the history, between history and today's tasks, and after them. */
  const Intro := "    Act like a personal productivity assistant.\n\n    Here is the user's task history:\n    "
  const Between := "\n\n    Here are today's tasks:\n    "
  const Outro :=
    "\n\n    Give a short insight report on:\n"
    + "    - How many high-priority tasks are due today\n"
    + "    - What task should be done first and why\n"
    + "    - How long it might take based on history\n"
    + "    - Any recommendation to boost productivity\n\n"
    + "    Limit response to 2-3 concise sentences."

  /**
   * The prompt with the serialised history and today's tasks interpolated;
   * the history comes first, each one intact at a fixed position.
   */
  function Prompt(history: string, today: string): (p: string)
    ensures |p| == |Intro| + |history| + |Between| + |today| + |Outro|
    ensures p[|Intro|..|Intro| + |history|] == history
    ensures p[|Intro| + |history| + |Between|..|Intro| + |history| + |Between| + |today|] == today
    ensures p[..|Intro|] == Intro
    ensures p[|Intro| + |history|..|Intro| + |history| + |Between|] == Between
    ensures p[|p| - |Outro|..] == Outro
  {
    var p := Intro + history + Between + today + Outro;
    assert p[|Intro|..|Intro| + |history|] == history;
    p
  }

  /** `OpenRouterService::chat`: the reply's content, or the fixed fallback when there is none. */
  function Chat(complete: Completion, prompt: string): (r: string)
    ensures complete(prompt).Some? ==> r == complete(prompt).value
    ensures complete(prompt).None? ==> r == NoResponse
  {
    complete(prompt).GetOr(NoResponse)
  }

  /**
   * `execute`: the chat reply to the prompt that embeds the user's history,
   * then today's tasks; the fallback text when the reply has no content.
   */
  function GenerateInsight(rows: seq<Todo>, user: User, today: Day, encode: Encoder, complete: Completion): (r: string)
    ensures var prompt := Prompt(encode(History(rows, user.id, today)), encode(TodayTasks(rows, user.id, today)));
            && (complete(prompt).Some? ==> r == complete(prompt).value)
            && (complete(prompt).None? ==> r == NoResponse)
  {
    var todayTasks := TodayTasks(rows, user.id, today);
    var history := History(rows, user.id, today);
    Chat(complete, Prompt(encode(history), encode(todayTasks)))
  }

  /**
   * The two selections share no row, hold only the user's rows, and leave
   * out rows without a due date or due after today.
   */
  lemma SelectionsSeparate(rows: seq<Todo>, user: User, today: Day, t: Todo)
    ensures !(t in TodayTasks(rows, user.id, today) && t in History(rows, user.id, today))
    ensures t.userId != user.id ==> t !in TodayTasks(rows, user.id, today) && t !in History(rows, user.id, today)
    ensures t.dueDate.None? || t.dueDate.value > today ==>
              t !in TodayTasks(rows, user.id, today) && t !in History(rows, user.id, today)
  {
  }

  /** Every row of the user due on or before today lands in exactly one of the two selections. */
  lemma SelectionsCoverPast(rows: seq<Todo>, user: User, today: Day, t: Todo)
    requires t in rows && t.userId == user.id && t.dueDate.Some? && t.dueDate.value <= today
    ensures t in TodayTasks(rows, user.id, today) || t in History(rows, user.id, today)
  {
  }

  /** With no content in the reply, the insight is the fallback text. */
  lemma EmptyReplyFallsBack(rows: seq<Todo>, user: User, today: Day, encode: Encoder)
    ensures GenerateInsight(rows, user, today, encode, (p: string) => None) == NoResponse
  {
  }
}
