/**
 * The routes of `TodoController` and `AiController`, each composed as the
 * framework runs it: route binding, the form request's preparation,
 * authorisation and validation, the action, then the envelope.
 */
module Controllers {
  import opened Wrappers
  import opened Json
  import opened Models
  import opened Requests
  import opened TodoActions
  import opened ListTodos
  import opened Responses
  import AiActions

  /**
   * What a route answers: an envelope built by the controller, or one of
   * the framework's own refusals (403 from a failed `authorize`, 404 from
   * route binding, 422 listing the keys that broke a rule).
   */
  datatype Reply = Sent(response: JsonResponse) | Forbidden | NotFound | Unprocessable(errors: set<string>)

  function Status(r: Reply): int {
    match r
    case Sent(resp) => resp.status
    case Forbidden => 403
    case NotFound => 404
    case Unprocessable(_) => 422
  }

  /** The `data` member of a controller's envelope, if the reply is one. */
  function Data(r: Reply): Option<Json> {
    if r.Sent? && "data" in r.response.body then Some(r.response.body["data"]) else None
  }

  /** The message of the exception `orderBy` throws on a bad direction. */
  const BadDirectionMessage := "Order direction must be \"asc\" or \"desc\"."

  /**
   * `GET /todos` (`index`): the paginated envelope of the user's page, or,
   * when the action throws, the error envelope carrying the exception's
   * code (0) as its data, with status 500.
   */
  function Index(store: TodoStore, user: User, q: ListQuery): (r: JsonResponse)
    reads store
    requires store.Valid()
    ensures r.status == 200 <==> Descending(q.sortDirection).Some?
    ensures r.status == 200 ==> r == PaginatedResponse(ListTodos.ListTodos(store.Rows(), user, q).value)
    ensures r.status != 200 ==>
              && r.status == 500 && r.body.Keys == {"success", "message", "data"}
              && r.body["success"] == Bool(false) && r.body["data"] == Int(0)
  {
    var listing := ListTodos.ListTodos(store.Rows(), user, q);
    if listing.Ok? then
      PaginatedResponse(listing.value)
    else
      ErrorResponse(BadDirectionMessage, Int(0))
  }

  /**
   * `GET /todos/{id}` (`show`): route binding and the get action, with no
   * policy check: any authenticated user receives any existing todo.
   */
  function Show(store: TodoStore, user: User, id: int): (r: Reply)
    reads store
    ensures r == NotFound <==> id !in store.todos
    ensures id in store.todos ==>
              r == Sent(SuccessResponse(ToJson(store.todos[id]), Some("Todo retrieved successfully")))
  {
    if id !in store.todos then NotFound
    else Sent(SuccessResponse(ToJson(GetTodo(store.todos[id])), Some("Todo retrieved successfully")))
  }

  /**
   * A todo of another user is served to whoever asks, status 200 and its
   * title in the body, although the feature test expects 403 or 404.
   */
  lemma ShowServesOthersTodos(store: TodoStore, user: User, id: int)
    requires id in store.todos && store.todos[id].userId != user.id
    ensures Status(Show(store, user, id)) == 200
    ensures Show(store, user, id).response.body["data"].fields["title"] == Str(store.todos[id].title)
  {
  }

  /** `POST /todos` (`store`): create the todo for the acting user and answer 201 with it. */
  method Store(store: TodoStore, user: User, data: CreateData, now: int) returns (r: Reply)
    requires store.Valid()
    modifies store
    ensures store.Valid()
    ensures var t := NewRecord(old(store.nextId), user, data, now);
            && store.todos == old(store.todos)[t.id := t]
            && store.nextId == old(store.nextId) + 1
            && r == Sent(SuccessResponse(ToJson(t), Some("Todo created successfully"), 201))
  {
    var t := store.CreateTodo(user, data, now);
    r := Sent(SuccessResponse(ToJson(t), Some("Todo created successfully"), 201));
  }

  /**
   * `PUT /todos/{id}` (`update`): 404 for an unknown id; otherwise the body
   * is prepared, then the owner check (403), then the rules (422), and only
   * then the update, answered with the row as stored. Every refusal leaves
   * the store as it was.
   */
  method Update(store: TodoStore, user: User, id: int, input: UpdateInput, readDate: DateReader, now: int)
    returns (r: Reply)
    requires store.Valid()
    modifies store
    ensures store.Valid()
    ensures id !in old(store.todos) ==> r == NotFound
    ensures id in old(store.todos) && old(store.todos)[id].userId != user.id ==> r == Forbidden
    ensures id in old(store.todos) && old(store.todos)[id].userId == user.id
            && Validate(Prepared(input), readDate).Failed? ==>
              r == Unprocessable(Validate(Prepared(input), readDate).errors)
    ensures !r.Sent? ==> store.todos == old(store.todos)
    ensures store.nextId == old(store.nextId)
    ensures r.Sent? <==>
              id in old(store.todos) && old(store.todos)[id].userId == user.id
              && Validate(Prepared(input), readDate).Passed?
    ensures r.Sent? ==>
              var t := Merged(old(store.todos)[id], Validate(Prepared(input), readDate).data, now);
              && store.todos == old(store.todos)[id := t]
              && r.response == SuccessResponse(ToJson(t), Some("Todo updated successfully"))
  {
    if id !in store.todos {
      return NotFound;
    }
    var todo := store.todos[id];
    var request := new UpdateTodoRequest(user, todo, input);
    request.PrepareForValidation();
    if !request.Authorize() {
      return Forbidden;
    }
    match request.Validated(readDate)
    case Failed(errors) =>
      r := Unprocessable(errors);
    case Passed(data) =>
      var t := store.UpdateTodo(todo, data, now);
      r := Sent(SuccessResponse(ToJson(t), Some("Todo updated successfully")));
  }

  /**
   * `DELETE /todos/{id}` (`destroy`): 404 for an unknown id, 403 for a
   * todo of another user (the row stays), else the row is removed and the
   * answer carries null data.
   */
  method Destroy(store: TodoStore, user: User, id: int) returns (r: Reply)
    requires store.Valid()
    modifies store
    ensures store.Valid()
    ensures id !in old(store.todos) ==> r == NotFound && store.todos == old(store.todos)
    ensures id in old(store.todos) && old(store.todos)[id].userId != user.id ==>
              r == Forbidden && store.todos == old(store.todos)
    ensures id in old(store.todos) && old(store.todos)[id].userId == user.id ==>
              r == Sent(SuccessResponse(Json.Null, Some("Todo deleted successfully")))
              && store.todos == old(store.todos) - {id}
    ensures store.nextId == old(store.nextId)
  {
    if id !in store.todos {
      return NotFound;
    }
    var todo := store.todos[id];
    if !DeleteAuthorize(user, todo) {
      return Forbidden;
    }
    var _ := store.DeleteTodo(todo);
    r := Sent(SuccessResponse(Json.Null, Some("Todo deleted successfully")));
  }

  /**
   * `GET /ai/get-insight` (`getInsight`): the insight text in a success
   * envelope with status 200, once the completion call has returned.
   */
  function GetInsight(store: TodoStore, user: User, today: Day, encode: AiActions.Encoder, complete: AiActions.Completion)
    : (r: JsonResponse)
    reads store
    requires store.Valid()
    ensures r.status == 200 && r.body.Keys == {"success", "message", "data"}
    ensures r.body["success"] == Bool(true)
    ensures r.body["data"] == Str(AiActions.GenerateInsight(store.Rows(), user, today, encode, complete))
    ensures r.body["message"] == Str("Insight generated successfully")
  {
    var text := AiActions.GenerateInsight(store.Rows(), user, today, encode, complete);
    SuccessResponse(Str(text), Some("Insight generated successfully"))
  }
}
