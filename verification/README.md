# Todo resource layer of genius-todolist, in Dafny

This project models the backend core of a personal to-do application: the
owner-scoped store of todo records and what acts on it.

- The `TaskPriority` enum: three cases backed by 2, 1 and 0, with names, labels, colours and a sort rank.
- The `Todo` model: its attributes after casting, its JSON form, the `H:i` time format and its query scopes (completed, uncompleted, by priority, ordered by priority).
- The `TodoPolicy` abilities.
- The update and delete form requests. For the update request this covers the `is_completed` coercion, the owner check and the field rules.
- The create, update, delete, get and list actions. Create, update and delete are methods of a `TodoStore` class that holds the todos table as a `map` from id to record. Get and list are functions.
- The length-aware paginator that `paginate` builds.
- The success, error and paginated envelopes of the `ApiResponse` trait.
- The AI insight action. It selects the user's todos due today and due before today, builds the fixed prompt, and falls back to `"No response."` when the chat reply has no content.
- The routes. Each is one method or function that composes route binding, the form request's preparation, authorisation and validation, the action, and the envelope, in the order the framework runs them.
- The feature tests' scenarios. Each is a method on a fresh store.

Dates are day numbers. Timestamps are ticks of a clock that the caller passes in (`now`). Three pieces are parameters:

- the framework's date reading (`DateReader`, standing for `strtotime`, the `date` rule and the date cast);
- the JSON pretty-printer used in the prompt (`Encoder`);
- the chat-completion call (`Completion`).

Where the code and its tests disagree, or the code leaves a case to the
framework, the model follows the code:

- `show` (backend/app/Http/Controllers/TodoController.php:54-63) goes through no policy check. Any authenticated user receives any existing todo with status 200 (`Controllers.ShowServesOthersTodos`). The feature test at backend/tests/Feature/TodoTest.php:126-138 expects 403 or 404.
- `paginatedResponse` puts its flag under `status` (backend/app/Traits/ApiResponse.php:46). The list test (backend/tests/Feature/TodoTest.php:31) expects `success` (`Responses.PaginatedHasNoSuccessKey`).
- The update writes `title`, `description`, `due_date`, `is_completed` and `priority`, and never writes `target_time`, although the validator accepts it (`Requests.TargetTimeAccepted`, `TodoActions.UpdateKeepsUnwrittenFields`).
- Every written field goes through `??`, so an explicit null cannot clear `description` or `due_date`.
- A blank string (empty once trimmed) reaches none of the non-implicit rules (`date`, `date_format`, the `Enum` rule), so a blank `due_date`, `target_time` or `priority` passes validation (`Requests.BlankValuesPass`).
- An explicit null `is_completed` is turned into `false` before validation. It therefore validates and is written as false (`Requests.NullIsCompletedBecomesFalse`).
- An invalid `sort_direction` makes `orderBy` throw. `index` then answers 500 with the error envelope, whose `data` is the exception code 0 (`Controllers.Index`).

## Model

| member | source | states |
|---|---|---|
| `Enums.Value` | backend/app/Enums/TaskPriority.php:9-11 | the backing value of every case lies in 0..2; HIGH is exactly 2 and LOW exactly 0 |
| `Enums.TryFrom` | backend/app/Enums/TaskPriority.php:7-11 | an integer names a case exactly when it is 0, 1 or 2, and then the case's backing value is that integer |
| `Enums.ValueRoundTrip` | backend/app/Enums/TaskPriority.php:9-11 | a case maps to its value and back to itself |
| `Enums.Values` | backend/app/Enums/TaskPriority.php:18-21 | `values()` has one entry per case, and entry i is the backing value of the i-th declared case |
| `Enums.ValuesInDeclarationOrder` | backend/app/Enums/TaskPriority.php:18-21 | `values()` is `[2, 1, 0]` |
| `Enums.ValueListed` | backend/app/Models/Todo.php:83 | the value of any priority a record can hold is one of `values()` |
| `Enums.Color` | backend/app/Enums/TaskPriority.php:26-33 | every case's colour class is a Tailwind background class, starting with `bg-` |
| `Enums.Name` | backend/app/Enums/TaskPriority.php:38-45 | every case has a non-empty name |
| `Enums.Label` | backend/app/Enums/TaskPriority.php:50-57 | a case's badge text is its name followed by " Priority", up to letter case |
| `Enums.DescriptionsInjective` | backend/app/Enums/TaskPriority.php:26-57 | two cases with the same name, label or colour are the same case |
| `Enums.SortOrder` | backend/app/Enums/TaskPriority.php:62-69 | the sort rank equals the backing value |
| `Enums.SortOrderRanks` | backend/app/Enums/TaskPriority.php:62-69 | HIGH ranks above MEDIUM, which ranks above LOW |
| `Models.FormatTime` | backend/app/Models/Todo.php:82 | an `H:i` time is five characters with a colon in the middle |
| `Models.ParseTime` | backend/app/Http/Requests/UpdateTodoRequest.php:32 | a string accepted as `H:i` denotes an hour 0-23 and a minute 0-59 |
| `Models.ParseFormatTime` | backend/app/Models/Todo.php:82 | formatting a valid time and parsing the result gives the time back |
| `Models.FormatParseTime` | backend/app/Http/Requests/UpdateTodoRequest.php:32 | a string accepted as `H:i` is exactly the formatting of the time it denotes |
| `Models.ToJson` | backend/app/Models/Todo.php:77-85 | a serialised todo has exactly the ten column keys; id, owner, title, description, completion flag, priority (as its backing value), due date and timestamps are the record's own, and a target time is written in `H:i` |
| `Models.Where` | backend/app/Models/Todo.php:43-70 | `where` keeps each row satisfying the condition as often as it occurs, and no other row |
| `Models.WithPriority` | backend/app/Models/Todo.php:43-46 | keeps exactly the rows whose priority is the given case |
| `Models.Completed` | backend/app/Models/Todo.php:59-62 | keeps exactly the rows with `is_completed` true |
| `Models.Uncompleted` | backend/app/Models/Todo.php:67-70 | keeps exactly the rows with `is_completed` false |
| `Models.CompletedPartition` | backend/app/Models/Todo.php:59-70 | completed and uncompleted rows are disjoint and add up to all rows, multiplicities included |
| `Models.OrderBy` | backend/app/Actions/Todo/ListTodosAction.php:29-31 | `orderBy` returns a permutation of the rows in the column's order, ascending or descending |
| `Models.OrderByPriority` | backend/app/Models/Todo.php:51-54 | ordering by priority keeps the rows; it is highest first by default and lowest first when `descending` is false |
| `Models.NoneBeforeHigher` | backend/app/Models/Todo.php:51-54 | by default no row precedes one of higher sort rank |
| `Policies.ViewAny` | backend/app/Policies/TodoPolicy.php:18-21 | every user may list todos |
| `Policies.View` | backend/app/Policies/TodoPolicy.php:26-29 | a user may view a todo exactly when they are its owner |
| `Policies.Create` | backend/app/Policies/TodoPolicy.php:34-37 | every user may create a todo |
| `Policies.Update` | backend/app/Policies/TodoPolicy.php:42-45 | a user may update a todo exactly when they may view it |
| `Policies.Delete` | backend/app/Policies/TodoPolicy.php:50-53 | a user may delete a todo exactly when they may view it |
| `Policies.OpenAbilities` | backend/app/Policies/TodoPolicy.php:18-37 | `viewAny` and `create` hold for every user |
| `Policies.PerRecordAbilitiesAgree` | backend/app/Policies/TodoPolicy.php:26-53 | `view` holds exactly for the owner, and `update` and `delete` agree with `view` on every user and todo |
| `Policies.SoleOwner` | backend/app/Policies/TodoPolicy.php:42-45 | two users both allowed to update a todo are the same user |
| `Requests.AsBoolean` | backend/app/Http/Requests/UpdateTodoRequest.php:45 | a missing or null value reads as false; a boolean reads as itself; an integer reads as true exactly when it is 1; a string reads as true exactly when, lower-cased, it is "1", "true", "on" or "yes" |
| `Requests.Prepared` | backend/app/Http/Requests/UpdateTodoRequest.php:41-48 | a present `is_completed`, null included, becomes the boolean reading of its value; a missing one stays missing; no other key changes |
| `Requests.TitleOk` | backend/app/Http/Requests/UpdateTodoRequest.php:29 | a missing title passes; a null or blank one fails; a string passes exactly when it is not blank and at most 255 characters long |
| `Requests.DescriptionOk` | backend/app/Http/Requests/UpdateTodoRequest.php:30 | passes exactly for a missing or null description or a string |
| `Requests.DueDateOk` | backend/app/Http/Requests/UpdateTodoRequest.php:31 | a missing, null or blank due date passes; any other value passes exactly when the date reader understands it |
| `Requests.TargetTimeOk` | backend/app/Http/Requests/UpdateTodoRequest.php:32 | a missing, null or blank target time passes; any other passing value is a string in `H:i` form; a non-string fails |
| `Requests.IsCompletedOk` | backend/app/Http/Requests/UpdateTodoRequest.php:33 | booleans, missing, null and blank pass; an integer passes exactly when it is 0 or 1; a non-blank string passes exactly when it is "0" or "1" |
| `Requests.PriorityDigit` | backend/app/Http/Requests/UpdateTodoRequest.php:34 | a string names a case exactly when it is the single decimal digit of that case's backing value |
| `Requests.PriorityOk` | backend/app/Http/Requests/UpdateTodoRequest.php:34 | missing, null and blank pass; an integer passes exactly when it is 0, 1 or 2; a boolean fails; a non-blank string passes exactly when it is a case's digit |
| `Requests.Failures` | backend/app/Http/Requests/UpdateTodoRequest.php:26-36 | a key is reported exactly when its value breaks that key's rule, and only the six ruled keys can be reported |
| `Requests.Validate` | backend/app/Http/Requests/UpdateTodoRequest.php:26-36 | validation passes exactly when no rule is broken. Otherwise it reports the broken keys. On success a key has a value exactly when the body gave it a non-null, non-blank one (a blank description is kept). That value is the given title or description string, the date the reader gives, the time whose `H:i` form is the given string, the boolean reading of `is_completed`, and the case whose backing value or digit string was given |
| `Requests.PreparedIsCompletedPasses` | backend/app/Http/Requests/UpdateTodoRequest.php:41-48 | after preparation `is_completed` never breaks its rule |
| `Requests.NullIsCompletedBecomesFalse` | backend/app/Http/Requests/UpdateTodoRequest.php:43-47 | an explicit null `is_completed` reaches the validated data as false |
| `Requests.TargetTimeAccepted` | backend/app/Http/Requests/UpdateTodoRequest.php:32 | a body holding only a well-formed `HH:MM` target time validates, and the time is in the validated data |
| `Requests.BlankValuesPass` | backend/app/Http/Requests/UpdateTodoRequest.php:31-34 | a body with a blank due date, target time and priority validates and carries none of them |
| `Requests.PriorityRange` | backend/app/Http/Requests/UpdateTodoRequest.php:34 | an integer priority passes exactly when it is 0, 1 or 2 |
| `Requests.NullableKeys` | backend/app/Http/Requests/UpdateTodoRequest.php:29-31 | a null title is rejected; a null description or due date is accepted |
| `Requests.UpdateTodoRequest.Authorize` | backend/app/Http/Requests/UpdateTodoRequest.php:16-19 | the update request is authorised exactly when the user owns the todo |
| `Requests.UpdateTodoRequest.PrepareForValidation` | backend/app/Http/Requests/UpdateTodoRequest.php:41-48 | replaces the request's body in place by its prepared form |
| `Requests.DeleteAuthorize` | backend/app/Http/Requests/DeleteTodoRequest.php:14-17 | the delete request is authorised exactly when the user owns the todo |
| `TodoActions.NewRecord` | backend/app/Actions/Todo/CreateTodoAction.php:20-27 | a new row belongs to the acting user and keeps the given title. A missing description, due date or target time defaults to null, completion to false and priority to LOW |
| `TodoActions.OwnerCannotBeSpoofed` | backend/app/Actions/Todo/CreateTodoAction.php:20-27 | a `user_id` in the input changes nothing, and the owner is the acting user |
| `TodoActions.CreateKeepsGivenFields` | backend/app/Actions/Todo/CreateTodoAction.php:21-26 | every field the client gives is stored as given |
| `TodoActions.Assigned` | backend/app/Actions/Todo/UpdateTodoAction.php:19-25 | each of the five written fields takes the validated value when there is one and keeps the stored value otherwise; id, owner, target time and timestamps are kept |
| `TodoActions.Merged` | backend/app/Actions/Todo/UpdateTodoAction.php:19-25 | the updated row is the assigned row, with `updated_at` moved to `now` only when some field changed |
| `TodoActions.EmptyUpdateIsIdentity` | backend/app/Actions/Todo/UpdateTodoAction.php:19-25 | an update without values leaves the row unchanged, timestamps included |
| `TodoActions.UpdateIdempotent` | backend/app/Actions/Todo/UpdateTodoAction.php:20-24 | applying the same data twice gives the row that applying it once gives |
| `TodoActions.UpdateKeepsUnwrittenFields` | backend/app/Actions/Todo/UpdateTodoAction.php:19-25 | for any body that validates, the target time is kept; a null description or due date keeps the stored one; a missing title keeps the stored one |
| `TodoActions.GetTodo` | backend/app/Actions/Todo/GetTodoAction.php:14-17 | the get action returns its argument, every field included |
| `TodoActions.TodoStore.Rows` | backend/app/Actions/Todo/ListTodosAction.php:18 | the store's rows are exactly its records, one per id, in increasing id order |
| `TodoActions.TodoStore.CreateTodo` | backend/app/Actions/Todo/CreateTodoAction.php:17-29 | inserts the new row under an id not used before. The store gains exactly that row and no other row changes. The returned record is the stored one |
| `TodoActions.TodoStore.UpdateTodo` | backend/app/Actions/Todo/UpdateTodoAction.php:16-29 | replaces the row by its merged form and changes no other row. It returns the row as stored, with the same id, owner and target time |
| `TodoActions.TodoStore.DeleteTodo` | backend/app/Actions/Todo/DeleteTodoAction.php:15-20 | removes the loaded todo's row and nothing else, so the store shrinks by one and the id counter is kept; it returns true |
| `Pagination.Paginate` | backend/app/Actions/Todo/ListTodosAction.php:33-34 | a page holds at most `perPage` rows. They are the rows from offset `(page - 1) * perPage`, in order. `total` counts every row |
| `Pagination.LastPage` | backend/app/Traits/ApiResponse.php:51 | the last page is at least 1 and is the smallest page count that holds all rows |
| `Pagination.FirstItem` | backend/app/Traits/ApiResponse.php:54 | `from` is null exactly on an empty page, else the 1-based position of the page's first row |
| `Pagination.LastItem` | backend/app/Traits/ApiResponse.php:55 | `to` is null exactly on an empty page, else the 1-based position of the page's last row |
| `Pagination.ResolvePage` | backend/app/Actions/Todo/ListTodosAction.php:34 | the requested page when it is at least 1, else page 1 |
| `Pagination.FirstLastItemsLocate` | backend/app/Traits/ApiResponse.php:54-55 | on a non-empty page, `from` and `to` point at its first and last rows in the whole result, within the total |
| `Pagination.HasMorePages` | backend/app/Traits/ApiResponse.php:56 | more pages follow exactly when `currentPage * perPage` is below the total |
| `Pagination.HasMorePagesIffRowsRemain` | backend/app/Traits/ApiResponse.php:56 | `has_more_pages` holds exactly when rows lie beyond the current page |
| `Pagination.RowOnItsPage` | backend/app/Actions/Todo/ListTodosAction.php:34 | every row of the result appears on page `i / perPage + 1`, at position `i % perPage` |
| `Pagination.PastLastPageEmpty` | backend/app/Actions/Todo/ListTodosAction.php:34 | a page past the last one is empty |
| `ListTodos.Matching` | backend/app/Actions/Todo/ListTodosAction.php:18-27 | keeps exactly the user's rows that equal every set filter, each as often as it occurs |
| `ListTodos.Descending` | backend/app/Actions/Todo/ListTodosAction.php:30-31 | a missing direction means descending. Otherwise the lower-cased direction decides: "desc" is descending, "asc" ascending, and anything else is the thrown error |
| `ListTodos.ListTodos` | backend/app/Actions/Todo/ListTodosAction.php:16-35 | fails exactly on an invalid direction. Otherwise the page is the `page`-th slice of `per_page ?? 10` rows of some arrangement of exactly the matching rows, ordered by `sort_by ?? created_at`; total is the number of matching rows |
| `ListTodos.OthersNeverListed` | backend/app/Actions/Todo/ListTodosAction.php:18 | another user's row never appears on a page |
| `ListTodos.DefaultListing` | backend/app/Actions/Todo/ListTodosAction.php:29-33 | without sort or page size, a listing succeeds, holds at most 10 rows and is newest first |
| `ListTodos.FirstPageIsNewest` | backend/app/Actions/Todo/ListTodosAction.php:29-34 | without sort, page size or page, the page holds 10 rows, or every matching row when fewer match; no matching row left off it is newer than a row on it |
| `ListTodos.NewestPrefix` | backend/app/Actions/Todo/ListTodosAction.php:33-34 | the first page of 10 of a newest-first sequence holds its first rows, none older than a row left off |
| `Responses.SuccessResponse` | backend/app/Traits/ApiResponse.php:17-24 | the body is exactly `success`, `message`, `data`; `success` is true; message, data and status are passed through |
| `Responses.ErrorResponse` | backend/app/Traits/ApiResponse.php:31-38 | the body is exactly `success`, `message`, `data`; `success` is false; message, data and status are passed through |
| `Responses.Meta` | backend/app/Traits/ApiResponse.php:49-57 | `meta` has exactly the seven paginator keys; `from` and `to` are null on an empty page and otherwise the 1-based positions of the page's first and last rows |
| `Responses.PaginatedResponse` | backend/app/Traits/ApiResponse.php:43-59 | the body is exactly `status`, `message`, `data`, `meta`; `status` is true; the message is passed through; `data` is the page's rows, serialised one for one; `meta` is the paginator's meta object |
| `Responses.DefaultStatusCodes` | backend/app/Traits/ApiResponse.php:17-38 | a success defaults to status 200 with a null message; an error defaults to 500 with null data |
| `Responses.SuccessAndErrorDifferOnlyInFlag` | backend/app/Traits/ApiResponse.php:17-38 | with the same message, data and status, the two envelopes differ only in `success` |
| `Responses.PaginatedHasNoSuccessKey` | backend/app/Traits/ApiResponse.php:45-47 | a paginated body has `status` and no `success` key |
| `Responses.MetaMirrorsPaginator` | backend/app/Traits/ApiResponse.php:49-57 | every `meta` entry is the paginator's value, `from` and `to` included (`firstItem()` and `lastItem()`); `from` and `to` are null exactly on an empty page |
| `AiActions.TodayTasks` | backend/app/Actions/Ai/GenerateInsightAction.php:16 | keeps exactly the user's rows due today |
| `AiActions.History` | backend/app/Actions/Ai/GenerateInsightAction.php:17 | keeps exactly the user's rows due strictly before today |
| `AiActions.Prompt` | backend/app/Actions/Ai/GenerateInsightAction.php:22-38 | the prompt is the template's opening text, the history, the text between, today's tasks and the closing text, each intact at its position |
| `AiActions.Chat` | backend/app/Services/OpenRouterService.php:25 | the reply's content when there is one, else `"No response."` |
| `AiActions.GenerateInsight` | backend/app/Actions/Ai/GenerateInsightAction.php:13-41 | the insight is the reply to the prompt built from the user's history and today's tasks, or `"No response."` when the reply has no content |
| `AiActions.SelectionsSeparate` | backend/app/Actions/Ai/GenerateInsightAction.php:15-17 | no row is in both selections; other users' rows, undated rows and rows due after today are in neither |
| `AiActions.SelectionsCoverPast` | backend/app/Actions/Ai/GenerateInsightAction.php:16-17 | each of the user's rows due on or before today, as a date-only value, is in one of the two selections |
| `AiActions.EmptyReplyFallsBack` | backend/app/Services/OpenRouterService.php:25 | with no content in the reply, the insight is `"No response."` |
| `Controllers.Index` | backend/app/Http/Controllers/TodoController.php:26-35 | answers 200 exactly when the direction is valid, and then the body is the paginated envelope of the user's listing, which carries `status` and no `success` key (`Responses.PaginatedHasNoSuccessKey`). Otherwise it answers 500 with the error envelope whose data is 0 |
| `Controllers.Show` | backend/app/Http/Controllers/TodoController.php:54-63 | answers 404 exactly for an unknown id, else 200 with the stored todo, whoever asks |
| `Controllers.ShowServesOthersTodos` | backend/app/Http/Controllers/TodoController.php:54-63 | another user's todo is served with status 200 and its title |
| `Controllers.Store` | backend/app/Http/Controllers/TodoController.php:40-49 | stores the new row under the next id, advances the id counter by one, and answers 201 with the row |
| `Controllers.Update` | backend/app/Http/Controllers/TodoController.php:68-77 | 404 for an unknown id, then 403 for a non-owner, then 422 with the broken keys. Every refusal leaves the rows unchanged. Otherwise the merged row is stored and returned with 200. The id counter never moves |
| `Controllers.Destroy` | backend/app/Http/Controllers/TodoController.php:82-91 | 404 for an unknown id and 403 for a non-owner, both leaving the store unchanged. Otherwise the row is removed and the answer is 200 with null data. The id counter never moves, so a deleted id is not handed out again |
| `Controllers.GetInsight` | backend/app/Http/Controllers/AiController.php:14-17 | a 200 success envelope whose data is the generated insight and whose message is "Insight generated successfully" |
| `Scenarios.CreateThenShow` | backend/tests/Feature/TodoTest.php:50-124 | a created todo answers 201, belongs to its creator with the given title and priority, and `show` returns the same data |
| `Scenarios.UpdateOthersTodo` | backend/tests/Feature/TodoTest.php:177-196 | a non-owner's rename answers 403 and the title is unchanged |
| `Scenarios.OwnerUpdates` | backend/tests/Feature/TodoTest.php:141-175 | the owner's update answers 200 and stores the new title, description, completion and priority |
| `Scenarios.DeleteScenarios` | backend/tests/Feature/TodoTest.php:199-235 | a non-owner's delete answers 403 and the row stays; the owner's delete answers 200, after which `show` answers 404 |

## Left out

- `CreateTodoRequest` is not part of this model. `Controllers.Store` takes the create body as already validated, so the 422 for a create body without a title (backend/tests/Feature/TodoTest.php:86-91) is not modelled.
- Authentication, Sanctum, the 401 answer and the `/user` route: the acting user is a parameter.
- The frontend: client I/O and caching, not logic.
- `OpenAIService` and the HTTP request inside `OpenRouterService`, including its model name and temperature: the completion is the `Completion` parameter. Only the `"No response."` fallback is modelled.
- `json_encode` with pretty printing in the prompt: the `Encoder` parameter.
- Date parsing (`strtotime`), the `date` rule, the `datetime` cast and the time zone of `today()`: dates are day numbers and the reading of a date value is the `DateReader` parameter. This hides times of day. `due_date` carries the `datetime` cast, and the `date` rule accepts a value such as "2025-01-02 15:00". The insight's selections compare the column with today's midnight, so a due date with a time of day is in neither selection on its own day, unless the column is a DATE column. `AiActions.SelectionsCoverPast` therefore holds only for date-only values.
- `AiActions.SelectionsCoverPast`: is stated for date-only due dates. A due date with a time of day, on today's date, is in neither selection in the source.
- `Models.ToJson`: serialises the due date as its day number and timestamps as clock ticks, not as ISO-8601 strings.
- `Models.OrderBy`: sorts only by the integer-valued columns. Sorting by `title` or `description` depends on the database collation, and an unknown `sort_by` column fails inside the database; neither is representable here. Rows with equal keys keep their id order, an order the database leaves open. A null due date or target time sorts below every value, as MySQL and SQLite order NULLs; PostgreSQL sorts NULLs last when ascending.
- `ListTodos.ListTodos`: `per_page` is a positive integer. The framework's fallback for 0 and the database error for a negative value are not modelled.
- `ListTodos.ListTodos`: the `is_completed` and `priority` filters arrive as a boolean and an integer. How the database compares a query-string value such as "true" against the column is not modelled.
- `Requests.PriorityOk`: of PHP's scalar juggling in `tryFrom`, only the exact strings "0", "1" and "2" are accepted. Other numeric strings ("01", " 1", "1.0") and booleans are rejected.
- `Requests.Validate`: a blank due date or priority passes validation, as in the source, but the validated data carries no value for it, so the update keeps the stored value. The source hands the blank string on to the date or enum cast. There the outcome depends on the database driver (date) or is an uncaught `TypeError` (enum), and neither is modelled.
- `Controllers.GetInsight`: `getInsight` has no `catch`, so a transport failure of the completion request ends in the framework's 500 answer. The completion parameter always returns, so that failure is not modelled.
- `Requests.UpdateTodoRequest.Authorize` and `Requests.DeleteAuthorize`: the request input is taken to carry no key named `todo`. In the source, `$this->todo` reads the input before the route parameter, so a body or query key `todo` shadows the bound model. The owner is then refused with 403, or the request ends in a 500 when the value names a class, where the model answers 200.
- `Requests.AsBoolean`: does not strip surrounding whitespace before reading a string, as `filter_var` does.
- Laravel's global `TrimStrings` and `ConvertEmptyStringsToNull` middleware: request strings are taken as they arrive.
- The bodies of the framework's 403, 404 and 422 answers: they are the `Forbidden`, `NotFound` and `Unprocessable` replies. The last one carries the set of broken keys.
- The controllers' `catch` blocks for database failures in create, show, update and delete: the sequential store does not fail.
- `TodoActions.TodoStore.DeleteTodo`: requires the todo's row to be stored, as route binding guarantees. For an instance already deleted, `delete()` returns null, and the `bool` return type under strict types turns that into a `TypeError`; this stale-instance path is not modelled.
- `TodoActions.TodoStore.UpdateTodo`: requires the given todo to be the stored row under its id. Route binding loads it that way, so `fresh()` returning null for a vanished row is not modelled.
- `DB::transaction` atomicity, concurrent requests and last-write-wins: the model is sequential, so each action runs whole.
- Seeders and factories: random test data.
